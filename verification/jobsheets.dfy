/** The job-sheet curation logic that the full wizard's selection step and
    the simplified page both carry: sheets built from the generated
    name→description map, edited in place, deleted locally, or saved through
    the store endpoint. */
module JobSheets {
  import opened Wrappers
  import opened Text
  import opened Seqs
  import opened Api

  /** `'pending' | 'saved' | 'deleted'`. */
  datatype Status = Pending | Saved | Deleted

  /** `sheet-${index}-${Date.now()}`: the position in the generated batch and
      an opaque time stamp. `Date.now()` is read once per entry, so entries
      of one batch may carry different stamps; the index alone keeps them
      apart. */
  datatype SheetId = SheetId(index: nat, stamp: nat)

  datatype JobSheet = JobSheet(id: SheetId, titre: string, description: string, status: Status)

  /** No two sheets share an id. */
  ghost predicate DistinctIds(sheets: seq<JobSheet>) {
    forall i, j :: 0 <= i < j < |sheets| ==> sheets[i].id != sheets[j].id
  }

  /** `Object.entries(fiches).map(([titre, description], index) => ...)`:
      one pending sheet per entry, in entry order; `stamp(i)` is the clock
      reading taken while entry `i` is built. */
  function FromFiches(fiches: Fiches, stamp: nat -> nat): (r: seq<JobSheet>)
    ensures |r| == |fiches|
    ensures forall i :: 0 <= i < |r| ==>
              && r[i].titre == fiches[i].0
              && r[i].description == fiches[i].1
              && r[i].status == Pending
              && r[i].id.index == i
    ensures DistinctIds(r)
  {
    seq(|fiches|, i requires 0 <= i < |fiches| => JobSheet(SheetId(i, stamp(i)), fiches[i].0, fiches[i].1, Pending))
  }

  /** `prev.map(s => s.id === updated.id ? updated : s)`. */
  function ReplaceById(sheets: seq<JobSheet>, updated: JobSheet): (r: seq<JobSheet>)
    ensures |r| == |sheets|
    ensures forall i :: 0 <= i < |r| ==> r[i].id == sheets[i].id
    ensures forall i :: 0 <= i < |r| && sheets[i].id != updated.id ==> r[i] == sheets[i]
    ensures forall i :: 0 <= i < |r| && sheets[i].id == updated.id ==> r[i] == updated
  {
    seq(|sheets|, i requires 0 <= i < |sheets| => if sheets[i].id == updated.id then updated else sheets[i])
  }

  /** `prev.filter(s => s.id !== id)`. */
  function RemoveById(sheets: seq<JobSheet>, id: SheetId): (r: seq<JobSheet>)
    ensures forall i :: 0 <= i < |r| ==> r[i].id != id && r[i] in sheets
    ensures forall i :: 0 <= i < |sheets| && sheets[i].id != id ==> sheets[i] in r
    ensures Subsequence(r, sheets)
    ensures |r| == Count(sheets, IdIsNot(id))
    ensures forall x :: multiset(r)[x] == if x.id != id then multiset(sheets)[x] else 0
  {
    FilterMembers(sheets, IdIsNot(id));
    FilterMultiplicity(sheets, IdIsNot(id));
    Filter(sheets, IdIsNot(id))
  }

  /** `s => s.id !== id`. */
  function IdIsNot(id: SheetId): JobSheet -> bool {
    (s: JobSheet) => s.id != id
  }

  /** `prev.map(s => s.id === id ? { ...s, status: 'saved' } : s)`. */
  function MarkSaved(sheets: seq<JobSheet>, id: SheetId): (r: seq<JobSheet>)
    ensures |r| == |sheets|
    ensures forall i :: 0 <= i < |r| ==>
              && r[i].id == sheets[i].id
              && r[i].titre == sheets[i].titre
              && r[i].description == sheets[i].description
    ensures forall i :: 0 <= i < |r| ==>
              r[i].status == (if sheets[i].id == id then Saved else sheets[i].status)
  {
    seq(|sheets|, i requires 0 <= i < |sheets| =>
      if sheets[i].id == id then sheets[i].(status := Saved) else sheets[i])
  }

  /** The two buttons of the confirmation modal. */
  datatype Action = Save | Delete

  /** What `handleConfirmAction` did: the new list and the store request it
      sent, if any. */
  datatype Confirmed = Confirmed(sheets: seq<JobSheet>, request: Option<StoreRequest>)

  /** `handleConfirmAction(action)` on the sheet the modal was opened for.
      Without that sheet or a usable submission id nothing happens; Delete
      removes the sheet locally; Save sends its description to the store
      endpoint and marks it saved only once that call returned. The reply's
      `success` flag is not consulted. */
  function Confirm(sheets: seq<JobSheet>, target: Option<JobSheet>, submissionId: Option<string>,
                   action: Action, store: Result<StoreResponse>): (r: Confirmed)
    ensures (target.None? || !HasId(submissionId)) ==> r == Confirmed(sheets, None)
    ensures action == Delete ==> r.request.None?
    ensures r.request.Some? <==> action == Save && target.Some? && HasId(submissionId)
    ensures r.request.Some? ==> r.request.value == StoreRequest(submissionId.value, target.value.description)
    ensures store.Failure? ==> action == Save ==> r.sheets == sheets
    ensures target.Some? && HasId(submissionId) && action == Delete ==>
              r.sheets == RemoveById(sheets, target.value.id)
    ensures target.Some? && HasId(submissionId) && action == Save && store.Success? ==>
              r.sheets == MarkSaved(sheets, target.value.id)
  {
    if target.None? || !HasId(submissionId) then Confirmed(sheets, None)
    else
      match action
      case Delete => Confirmed(RemoveById(sheets, target.value.id), None)
      case Save =>
        var req := StoreRequest(submissionId.value, target.value.description);
        if store.Success? then Confirmed(MarkSaved(sheets, target.value.id), Some(req))
        else Confirmed(sheets, Some(req))
  }

  /** `EditModal.handleSave`: the sheet the modal was opened for, with both
      fields trimmed; id and status carried over. */
  function EditedSheet(jobSheet: Option<JobSheet>, titre: string, description: string): (r: Option<JobSheet>)
    ensures r.Some? <==> jobSheet.Some?
    ensures r.Some? ==>
              && r.value.id == jobSheet.value.id
              && r.value.status == jobSheet.value.status
              && r.value.titre == Trim(titre)
              && r.value.description == Trim(description)
  {
    match jobSheet
    case None => None
    case Some(s) => Some(s.(titre := Trim(titre), description := Trim(description)))
  }

  /** The modal's save button: disabled while either trimmed field is empty. */
  predicate EditSaveEnabled(titre: string, description: string) {
    Trim(titre) != [] && Trim(description) != []
  }

  /** A save through an enabled modal stores non-blank, trimmed fields. */
  lemma EnabledEditIsNonBlank(jobSheet: JobSheet, titre: string, description: string)
    requires EditSaveEnabled(titre, description)
    ensures var r := EditedSheet(Some(jobSheet), titre, description).value;
            && !IsBlank(r.titre) && !IsBlank(r.description)
            && Trim(r.titre) == r.titre && Trim(r.description) == r.description
  {
    TrimIdempotent(titre);
    TrimIdempotent(description);
  }

  /** `jobSheets.length > 0 && jobSheets.every(s => s.status !== 'pending')`. */
  predicate AllProcessed(sheets: seq<JobSheet>) {
    |sheets| > 0 && forall i :: 0 <= i < |sheets| ==> sheets[i].status != Pending
  }

  /** The sheets shown (`status !== 'deleted'`) and the two lists the
      statistics count. */
  function StatusIs(status: Status): JobSheet -> bool {
    (s: JobSheet) => s.status == status
  }

  function StatusIsNot(status: Status): JobSheet -> bool {
    (s: JobSheet) => s.status != status
  }

  function Visible(sheets: seq<JobSheet>): seq<JobSheet> {
    Filter(sheets, StatusIsNot(Deleted))
  }

  function PendingOf(sheets: seq<JobSheet>): seq<JobSheet> {
    Filter(Visible(sheets), StatusIs(Pending))
  }

  function SavedOf(sheets: seq<JobSheet>): seq<JobSheet> {
    Filter(Visible(sheets), StatusIs(Saved))
  }

  /** Every sheet processed exactly when there is a sheet and the pending
      list the statistics count is empty. */
  lemma AllProcessedIffNonePending(sheets: seq<JobSheet>)
    ensures AllProcessed(sheets) <==> |sheets| > 0 && PendingOf(sheets) == []
  {
    FilterMembers(sheets, StatusIsNot(Deleted));
    FilterMembers(Visible(sheets), StatusIs(Pending));
    assert forall i :: 0 <= i < |sheets| ==> sheets[i] in sheets;
  }

  /** The pending and saved lists are disjoint and together hold every
      visible sheet: no visible sheet is counted twice or left out. */
  lemma PendingSavedPartition(sheets: seq<JobSheet>)
    ensures forall s :: s in PendingOf(sheets) ==> s !in SavedOf(sheets)
    ensures forall s :: s in Visible(sheets) <==> s in PendingOf(sheets) || s in SavedOf(sheets)
    ensures |PendingOf(sheets)| + |SavedOf(sheets)| == |Visible(sheets)|
  {
    var v := Visible(sheets);
    FilterMembers(sheets, StatusIsNot(Deleted));
    FilterMembers(v, StatusIs(Pending));
    FilterMembers(v, StatusIs(Saved));
    SplitCount(v);
  }

  /** Counting version of the partition, on a list without deleted sheets. */
  lemma {:induction false} SplitCount(v: seq<JobSheet>)
    requires forall i :: 0 <= i < |v| ==> v[i].status != Deleted
    ensures |Filter(v, StatusIs(Pending))| + |Filter(v, StatusIs(Saved))| == |v|
    decreases |v|
  {
    if |v| > 0 {
      SplitCount(v[1..]);
    }
  }

  /** A user action on the list of sheets, as the page offers it. */
  datatype Event =
    | Edit(target: JobSheet, titre: string, description: string)
    | Resolve(target: JobSheet, action: Action, store: Result<StoreResponse>)

  /** The buttons exist only for sheets of the list that are not saved:
      "Éditer" is disabled and "Valider" is not rendered on a saved sheet, and
      the edit modal's save needs two non-blank fields. */
  predicate Offered(sheets: seq<JobSheet>, e: Event) {
    match e
    case Edit(t, titre, description) => t in sheets && t.status != Saved && EditSaveEnabled(titre, description)
    case Resolve(t, _, _) => t in sheets && t.status != Saved
  }

  /** The list after an event; `handleSaveEdit` is `ReplaceById`. */
  function Step(sheets: seq<JobSheet>, submissionId: Option<string>, e: Event): seq<JobSheet> {
    match e
    case Edit(t, titre, description) => ReplaceById(sheets, EditedSheet(Some(t), titre, description).value)
    case Resolve(t, action, store) => Confirm(sheets, Some(t), submissionId, action, store).sheets
  }

  /** No sheet carries the `deleted` status. */
  ghost predicate NoDeleted(sheets: seq<JobSheet>) {
    forall i :: 0 <= i < |sheets| ==> sheets[i].status != Deleted
  }

  /** Every saved sheet of `before` is still in `after`, unchanged. */
  ghost predicate SavedKept(before: seq<JobSheet>, after: seq<JobSheet>) {
    forall i :: 0 <= i < |before| && before[i].status == Saved ==> before[i] in after
  }

  /** Every pending sheet of `after` was pending in `before`. */
  ghost predicate PendingWasPending(before: seq<JobSheet>, after: seq<JobSheet>) {
    forall i :: 0 <= i < |after| && after[i].status == Pending ==>
      exists j :: 0 <= j < |before| && before[j].id == after[i].id && before[j].status == Pending
  }

  /** Status moves one way only: through any offered event a saved sheet
      stays exactly as it was, no sheet becomes pending, and none is marked
      deleted. */
  lemma StatusOnlyAdvances(sheets: seq<JobSheet>, submissionId: Option<string>, e: Event)
    requires DistinctIds(sheets) && NoDeleted(sheets)
    requires Offered(sheets, e)
    ensures NoDeleted(Step(sheets, submissionId, e))
    ensures SavedKept(sheets, Step(sheets, submissionId, e))
    ensures PendingWasPending(sheets, Step(sheets, submissionId, e))
    ensures DistinctIds(Step(sheets, submissionId, e))
    ensures |Step(sheets, submissionId, e)| <= |sheets|
  {
    match e
    case Edit(t, titre, description) =>
      EditAdvances(sheets, t, titre, description);
    case Resolve(t, action, store) =>
      var c := Confirm(sheets, Some(t), submissionId, action, store);
      assert Step(sheets, submissionId, e) == c.sheets;
      if HasId(submissionId) && action == Save && store.Success? {
        assert c.sheets == MarkSaved(sheets, t.id);
        SaveAdvances(sheets, t.id);
      } else if HasId(submissionId) && action == Delete {
        assert c.sheets == RemoveById(sheets, t.id);
        DeleteAdvances(sheets, t.id);
        SubsequenceKeepsDistinctIds(c.sheets, sheets);
        forall i | 0 <= i < |sheets| && sheets[i].status == Saved ensures sheets[i] in c.sheets {
          assert sheets[i] != t;
        }
      } else {
        assert c.sheets == sheets;
      }
  }

  lemma EditAdvances(sheets: seq<JobSheet>, t: JobSheet, titre: string, description: string)
    requires DistinctIds(sheets) && NoDeleted(sheets) && t in sheets && t.status != Saved
    ensures var r := ReplaceById(sheets, EditedSheet(Some(t), titre, description).value);
            NoDeleted(r) && SavedKept(sheets, r) && PendingWasPending(sheets, r)
  {
    var u := EditedSheet(Some(t), titre, description).value;
    var k :| 0 <= k < |sheets| && sheets[k] == t;
    ReplaceKeepsSaved(sheets, k, u);
    ReplaceKeepsPending(sheets, k, u);
  }

  /** Replacing a sheet that is not saved by one with its id and status
      leaves every saved sheet in place. */
  lemma ReplaceKeepsSaved(sheets: seq<JobSheet>, k: nat, u: JobSheet)
    requires DistinctIds(sheets) && k < |sheets|
    requires u.id == sheets[k].id && u.status == sheets[k].status != Saved
    ensures SavedKept(sheets, ReplaceById(sheets, u))
  {
    var r := ReplaceById(sheets, u);
    forall i | 0 <= i < |sheets| && sheets[i].status == Saved ensures sheets[i] in r {
      assert i != k;
      assert sheets[i].id != sheets[k].id;
      assert r[i] == sheets[i];
    }
  }

  /** The same replacement adds no deleted and no new pending sheet. */
  lemma ReplaceKeepsPending(sheets: seq<JobSheet>, k: nat, u: JobSheet)
    requires NoDeleted(sheets) && k < |sheets|
    requires u.id == sheets[k].id && u.status == sheets[k].status
    ensures NoDeleted(ReplaceById(sheets, u))
    ensures PendingWasPending(sheets, ReplaceById(sheets, u))
  {
    var r := ReplaceById(sheets, u);
    forall i | 0 <= i < |r| && r[i].status == Pending
      ensures exists j :: 0 <= j < |sheets| && sheets[j].id == r[i].id && sheets[j].status == Pending
    {
      if sheets[i].id == u.id {
        assert sheets[k].id == r[i].id && sheets[k].status == Pending;
      } else {
        assert sheets[i] == r[i];
      }
    }
  }

  lemma SaveAdvances(sheets: seq<JobSheet>, id: SheetId)
    requires NoDeleted(sheets)
    ensures var r := MarkSaved(sheets, id);
            NoDeleted(r) && SavedKept(sheets, r) && PendingWasPending(sheets, r)
  {
    var r := MarkSaved(sheets, id);
    forall i | 0 <= i < |sheets| && sheets[i].status == Saved ensures sheets[i] in r {
      assert r[i] == sheets[i];
    }
    forall i | 0 <= i < |r| && r[i].status == Pending
      ensures exists j :: 0 <= j < |sheets| && sheets[j].id == r[i].id && sheets[j].status == Pending
    {
      assert sheets[i].id == r[i].id;
    }
  }

  lemma DeleteAdvances(sheets: seq<JobSheet>, id: SheetId)
    requires NoDeleted(sheets)
    ensures var r := RemoveById(sheets, id);
            NoDeleted(r) && PendingWasPending(sheets, r)
    ensures forall i :: 0 <= i < |sheets| && sheets[i].id != id ==> sheets[i] in RemoveById(sheets, id)
  {
    var r := RemoveById(sheets, id);
    forall i | 0 <= i < |r| ensures r[i].status != Deleted {
      var j :| 0 <= j < |sheets| && sheets[j] == r[i];
    }
    forall i | 0 <= i < |r| && r[i].status == Pending
      ensures exists j :: 0 <= j < |sheets| && sheets[j].id == r[i].id && sheets[j].status == Pending
    {
      var j :| 0 <= j < |sheets| && sheets[j] == r[i];
    }
  }

  /** A sub-list of a list with distinct ids has distinct ids; in particular
      deleting a sheet never makes two sheets share an id. */
  lemma {:induction false} SubsequenceKeepsDistinctIds(r: seq<JobSheet>, s: seq<JobSheet>)
    requires Subsequence(r, s) && DistinctIds(s)
    ensures DistinctIds(r)
    decreases |s|
  {
    if |r| > 0 {
      assert DistinctIds(s[1..]) by {
        forall i, j | 0 <= i < j < |s[1..]| ensures s[1..][i].id != s[1..][j].id {
          assert s[1..][i] == s[i + 1] && s[1..][j] == s[j + 1];
        }
      }
      if r[0] == s[0] && Subsequence(r[1..], s[1..]) {
        SubsequenceKeepsDistinctIds(r[1..], s[1..]);
        SubsequenceMembers(r[1..], s[1..]);
        forall i, j | 0 <= i < j < |r| ensures r[i].id != r[j].id {
          assert r[j] == r[1..][j - 1] && r[j] in r[1..];
          if i == 0 {
            var k :| 0 <= k < |s[1..]| && s[1..][k] == r[j];
            assert s[0].id != s[k + 1].id;
          } else {
            assert r[i] == r[1..][i - 1];
          }
        }
      } else {
        SubsequenceKeepsDistinctIds(r, s[1..]);
      }
    }
  }

  /** The list after a sequence of events, each applied to the list the
      previous one left. */
  function Run(sheets: seq<JobSheet>, submissionId: Option<string>, events: seq<Event>): seq<JobSheet>
    decreases |events|
  {
    if |events| == 0 then sheets
    else Run(Step(sheets, submissionId, events[0]), submissionId, events[1..])
  }

  /** Every event of the sequence is offered by the list it is applied to. */
  predicate AllOffered(sheets: seq<JobSheet>, submissionId: Option<string>, events: seq<Event>)
    decreases |events|
  {
    |events| == 0 ||
    (Offered(sheets, events[0]) && AllOffered(Step(sheets, submissionId, events[0]), submissionId, events[1..]))
  }

  /** `SavedKept` composes. */
  lemma SavedKeptTrans(a: seq<JobSheet>, b: seq<JobSheet>, c: seq<JobSheet>)
    requires SavedKept(a, b) && SavedKept(b, c)
    ensures SavedKept(a, c)
  {
    forall i | 0 <= i < |a| && a[i].status == Saved ensures a[i] in c {
      var j :| 0 <= j < |b| && b[j] == a[i];
    }
  }

  /** `PendingWasPending` composes. */
  lemma PendingWasPendingTrans(a: seq<JobSheet>, b: seq<JobSheet>, c: seq<JobSheet>)
    requires PendingWasPending(a, b) && PendingWasPending(b, c)
    ensures PendingWasPending(a, c)
  {
    forall i | 0 <= i < |c| && c[i].status == Pending
      ensures exists k :: 0 <= k < |a| && a[k].id == c[i].id && a[k].status == Pending
    {
      var j :| 0 <= j < |b| && b[j].id == c[i].id && b[j].status == Pending;
      var k :| 0 <= k < |a| && a[k].id == b[j].id && a[k].status == Pending;
    }
  }

  /** Over a whole curation session the invariants hold together: ids stay
      distinct, no sheet is marked deleted, the list never grows, saved
      sheets are kept as they were and no sheet returns to pending. */
  lemma {:induction false} SessionOnlyAdvances(sheets: seq<JobSheet>, submissionId: Option<string>, events: seq<Event>)
    requires DistinctIds(sheets) && NoDeleted(sheets)
    requires AllOffered(sheets, submissionId, events)
    ensures var r := Run(sheets, submissionId, events);
            && DistinctIds(r) && NoDeleted(r) && |r| <= |sheets|
            && SavedKept(sheets, r) && PendingWasPending(sheets, r)
    decreases |events|
  {
    if |events| > 0 {
      var mid := Step(sheets, submissionId, events[0]);
      var r := Run(mid, submissionId, events[1..]);
      StatusOnlyAdvances(sheets, submissionId, events[0]);
      SessionOnlyAdvances(mid, submissionId, events[1..]);
      SavedKeptTrans(sheets, mid, r);
      PendingWasPendingTrans(sheets, mid, r);
    }
  }

  /** A session that starts from a generated list: whatever the user does,
      the sheets keep distinct ids, none is marked deleted, there are never
      more sheets than generated entries, and every sheet still pending is
      a generated one. */
  lemma GeneratedSession(fiches: Fiches, stamp: nat -> nat, submissionId: Option<string>, events: seq<Event>)
    requires AllOffered(FromFiches(fiches, stamp), submissionId, events)
    ensures var r := Run(FromFiches(fiches, stamp), submissionId, events);
            && DistinctIds(r) && NoDeleted(r) && |r| <= |fiches|
            && forall i :: 0 <= i < |r| && r[i].status == Pending ==>
                 r[i].id.index < |fiches| && r[i].id.stamp == stamp(r[i].id.index)
  {
    var s0 := FromFiches(fiches, stamp);
    SessionOnlyAdvances(s0, submissionId, events);
  }

  /** Deleting a sheet of a list with distinct ids removes exactly that one. */
  lemma DeleteRemovesOne(sheets: seq<JobSheet>, k: nat)
    requires DistinctIds(sheets) && k < |sheets|
    ensures RemoveById(sheets, sheets[k].id) == sheets[..k] + sheets[k + 1..]
  {
    var p := IdIsNot(sheets[k].id);
    forall i | 0 <= i < |sheets| && i != k ensures p(sheets[i]) {
      if i < k {
        assert sheets[i].id != sheets[k].id;
      } else {
        assert sheets[k].id != sheets[i].id;
      }
    }
    FilterDropsOne(sheets, p, k);
  }

  /** The scenario of two generated positions: two pending sheets; deleting
      one leaves one pending sheet; saving it completes the step. */
  lemma TwoPositionsScenario(fiches: Fiches, stamp: nat -> nat, submissionId: string, reply: StoreResponse)
    requires |fiches| == 2 && submissionId != ""
    ensures var s0 := FromFiches(fiches, stamp);
            var s1 := Confirm(s0, Some(s0[0]), Some(submissionId), Delete, Failure("")).sheets;
            var s2 := Confirm(s1, Some(s0[1]), Some(submissionId), Save, Success(reply)).sheets;
            && |s0| == 2 && !AllProcessed(s0)
            && |s1| == 1 && s1[0].status == Pending && !AllProcessed(s1)
            && |s2| == 1 && s2[0].status == Saved && AllProcessed(s2)
  {
    var s0 := FromFiches(fiches, stamp);
    DeleteRemovesOne(s0, 0);
    assert s0[..0] + s0[1..] == [s0[1]];
  }
}
