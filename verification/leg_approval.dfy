/**
 The administrator's leg review page: which legs a status filter shows, the
 actions offered for a leg, single and batch status updates, and the selection
 of legs the batch actions apply to.
 */
module LegApproval {
  import opened Wrappers
  import opened Records

  // ---------------------------------------------------------------------------
  // Status filter and action menu
  // ---------------------------------------------------------------------------

  /** The statuses the page's query keeps for a filter value; unknown values fall back to the default view. */
  function FilterStatuses(filter: string): (r: set<LegStatus>)
    ensures r != {} && r <= AllLegStatuses
    ensures r == AllLegStatuses <==> filter == "all_statuses"
    ensures r == {PENDING, CONFLICT} <==> filter !in {"pending", "conflict", "approved", "all_statuses"}
    ensures |r| == 1 <==> filter in {"pending", "conflict", "approved"}
  {
    if filter == "pending" then {PENDING}
    else if filter == "conflict" then {CONFLICT}
    else if filter == "approved" then {OK}
    else if filter == "all_statuses" then AllLegStatuses
    else {PENDING, CONFLICT}
  }

  /** The ids of the legs a filter shows. */
  function Shown(legs: Legs, filter: string): (r: set<Id>)
    ensures r <= legs.Keys
    ensures forall id :: id in r <==> id in legs && legs[id].status in FilterStatuses(filter)
  {
    set id | id in legs && legs[id].status in FilterStatuses(filter)
  }

  /** Every leg appears in the "all statuses" view; an approved leg is hidden in the default one. */
  lemma ShownByFilter(legs: Legs, id: Id, filter: string)
    requires id in legs
    ensures id in Shown(legs, "all_statuses")
    ensures legs[id].status == OK && filter !in {"pending", "conflict", "approved", "all_statuses"} ==>
      id !in Shown(legs, filter)
  {
    var st := legs[id].status;
    assert st == PENDING || st == OK || st == DUPLICATE || st == CONFLICT || st == REJECTED;
    if filter !in {"pending", "conflict", "approved", "all_statuses"} {
      assert FilterStatuses(filter) == {PENDING, CONFLICT};
    }
  }

  /** The status buttons shown for a leg: an approved leg can only be reverted. */
  function Actions(s: LegStatus): (r: seq<LegStatus>)
    ensures forall t :: t in r <==> (if s == OK then t == PENDING else t in AllLegStatuses - {PENDING})
    ensures forall i, j :: 0 <= i < j < |r| ==> r[i] != r[j]
  {
    if s == OK then [PENDING] else [OK, DUPLICATE, CONFLICT, REJECTED]
  }

  /** Through the menus every leg can be approved and every approval can be withdrawn. */
  lemma ActionsReachApproval(s: LegStatus)
    ensures s != OK ==> OK in Actions(s)
    ensures s == OK ==> Actions(s) == [PENDING] && OK in Actions(PENDING)
    ensures s !in Actions(s) <==> s == OK || s == PENDING
  {
  }

  // ---------------------------------------------------------------------------
  // Page state: the selection and the note drafts
  // ---------------------------------------------------------------------------

  /** The selected leg ids and the note typed for each leg. */
  datatype Page = Page(selected: set<Id>, drafts: map<Id, string>)

  /** `notes[legId] || null`: a missing or empty draft is written as null. */
  function DraftNote(drafts: map<Id, string>, id: Id): (r: Option<string>)
    ensures r.Some? <==> id in drafts && drafts[id] != ""
    ensures r.Some? ==> r.value == drafts[id]
  {
    if id in drafts then OrNull(drafts[id]) else None
  }

  /** The update sent for one leg: its status and its draft note, nothing else. */
  function StatusPatch(drafts: map<Id, string>, id: Id, status: LegStatus): (p: LegPatch)
    ensures p.status == Some(status) && p.notes == Some(DraftNote(drafts, id))
    ensures !WritesNullOdds(p)
  {
    EmptyLegPatch.(status := Some(status), notes := Some(DraftNote(drafts, id)))
  }

  /** The row after a status update: status and note written, every other column kept. */
  lemma StatusPatchKeepsRow(leg: Leg, drafts: map<Id, string>, status: LegStatus)
    ensures var r := ApplyLegPatch(leg, StatusPatch(drafts, leg.id, status));
      r == leg.(status := status, notes := DraftNote(drafts, leg.id))
  {
  }

  function Toggle(selected: set<Id>, id: Id): (r: set<Id>)
    ensures id in r <==> id !in selected
    ensures r - {id} == selected - {id}
  {
    if id in selected then selected - {id} else selected + {id}
  }

  lemma ToggleTwice(selected: set<Id>, id: Id)
    ensures Toggle(Toggle(selected, id), id) == selected
  {
  }

  /** `selectAllLegs`: the selection becomes the ids of the legs on screen. */
  function SelectAll(shown: seq<Leg>): (r: set<Id>)
    ensures |r| <= |shown|
    ensures forall i :: 0 <= i < |shown| ==> shown[i].id in r
    ensures forall id :: id in r ==> exists i :: 0 <= i < |shown| && shown[i].id == id
  {
    if shown == [] then {} else {shown[0].id} + SelectAll(shown[1..])
  }

  /** The "select all" check box is ticked when as many legs are selected as are shown. */
  predicate AllChecked(selected: set<Id>, shown: seq<Leg>) {
    |selected| == |shown| && |shown| > 0
  }

  function DistinctIds(shown: seq<Leg>): bool {
    forall i, j :: 0 <= i < j < |shown| ==> shown[i].id != shown[j].id
  }

  /** With distinct ids on screen, selecting all ticks the check box and clearing unticks it. */
  lemma {:induction false} SelectAllChecks(shown: seq<Leg>)
    requires DistinctIds(shown) && shown != []
    ensures AllChecked(SelectAll(shown), shown)
    ensures !AllChecked({}, shown)
  {
    SelectAllSize(shown);
  }

  lemma {:induction false} SelectAllSize(shown: seq<Leg>)
    requires DistinctIds(shown)
    ensures |SelectAll(shown)| == |shown|
  {
    if shown != [] {
      SelectAllSize(shown[1..]);
      forall i | 0 <= i < |shown[1..]|
        ensures shown[1..][i].id != shown[0].id
      {
        assert shown[1..][i] == shown[i + 1];
      }
    }
  }

  // ---------------------------------------------------------------------------
  // Updates
  // ---------------------------------------------------------------------------

  /** The outcome of a single update, with the page state afterwards. */
  datatype Updated = Updated(ok: bool, legs: Legs, page: Page)

  /**
   `updateLegStatus`. `requestFailed` stands for an error returned by the
   request; on success the leg leaves the selection and its draft is emptied.
   */
  function UpdateLegStatus(legs: Legs, page: Page, id: Id, status: LegStatus, requestFailed: bool): (r: Updated)
    ensures r.ok <==> !requestFailed
    ensures !r.ok ==> r.legs == legs && r.page == page
    ensures r.legs.Keys == legs.Keys && forall k :: k in legs && k != id ==> r.legs[k] == legs[k]
    ensures r.ok && id in legs ==> r.legs[id] == legs[id].(status := status, notes := DraftNote(page.drafts, id))
    ensures r.ok ==> r.page.selected == page.selected - {id}
    ensures r.ok ==> r.page.drafts == page.drafts[id := ""]
  {
    if requestFailed then Updated(false, legs, page)
    else
      var p := StatusPatch(page.drafts, id, status);
      var legs' := UpdateLeg(legs, id, p);
      assert id in legs ==> legs'.value[id] == legs[id].(status := status, notes := DraftNote(page.drafts, id)) by {
        if id in legs {
          StatusPatchKeepsRow(legs[id], page.drafts, status);
        }
      }
      Updated(true, legs'.value, Page(page.selected - {id}, page.drafts[id := ""]))
  }

  /** A note is written once: after a successful update the draft is empty, so a further update stores null. */
  lemma NoteWrittenOnce(legs: Legs, page: Page, id: Id, s1: LegStatus, s2: LegStatus)
    requires id in legs
    ensures var r1 := UpdateLegStatus(legs, page, id, s1, false);
      var r2 := UpdateLegStatus(r1.legs, r1.page, id, s2, false);
      r2.legs[id].notes.None? && r2.legs[id].status == s2 && id !in r2.page.selected
  {
  }

  datatype BatchOutcome =
    | NothingSelected
    | BatchFailed(legs: Legs, failures: nat)
    | BatchDone(legs: Legs, count: nat, page: Page)

  /** The legs after a batch: every selected leg whose request succeeded is updated. */
  function ApplyBatch(legs: Legs, page: Page, status: LegStatus, failed: set<Id>): (r: Legs)
    ensures r.Keys == legs.Keys
    ensures forall k :: k in legs && (k !in page.selected || k in failed) ==> r[k] == legs[k]
    ensures forall k :: k in legs && k in page.selected && k !in failed ==>
      r[k] == legs[k].(status := status, notes := DraftNote(page.drafts, k))
  {
    forall k | k in legs ensures ApplyLegPatch(legs[k], StatusPatch(page.drafts, k, status))
      == legs[k].(status := status, notes := DraftNote(page.drafts, k))
    {
      StatusPatchKeepsRow(legs[k], page.drafts, status);
    }
    map k | k in legs ::
      if k in page.selected && k !in failed then ApplyLegPatch(legs[k], StatusPatch(page.drafts, k, status))
      else legs[k]
  }

  /**
   `batchUpdateLegs`: one request per selected id, all sent together;
   `failed` is the set of ids whose request returns an error. The requests that
   succeeded stay applied even when the batch reports failure.
   */
  function BatchUpdate(legs: Legs, page: Page, status: LegStatus, failed: set<Id>): (r: BatchOutcome)
    ensures r == NothingSelected <==> page.selected == {}
    ensures r.BatchFailed? <==> page.selected != {} && page.selected * failed != {}
    ensures r.BatchFailed? ==> r.failures == |page.selected * failed| > 0
    ensures r.BatchDone? ==> r.count == |page.selected| && r.page == page.(selected := {})
    ensures r.BatchFailed? || r.BatchDone? ==> r.legs.Keys == legs.Keys
    ensures r.BatchDone? ==>
      (forall k :: k in legs && k in page.selected ==> r.legs[k].status == status)
  {
    if page.selected == {} then NothingSelected
    else
      var legs' := ApplyBatch(legs, page, status, failed);
      var errors := page.selected * failed;
      if errors != {} then BatchFailed(legs', |errors|)
      else
        assert forall k :: k in page.selected ==> k !in failed by {
          forall k | k in page.selected ensures k !in failed {
            assert k !in errors;
          }
        }
        BatchDone(legs', |page.selected|, page.(selected := {}))
  }

  /** A successful batch of one leg changes the table exactly as the single update does. */
  lemma BatchOfOneIsSingleUpdate(legs: Legs, page: Page, id: Id, status: LegStatus)
    requires page.selected == {id}
    ensures BatchUpdate(legs, page, status, {}).legs == UpdateLegStatus(legs, page, id, status, false).legs
  {
    var b := BatchUpdate(legs, page, status, {}).legs;
    var u := UpdateLegStatus(legs, page, id, status, false).legs;
    assert b.Keys == u.Keys;
    forall k | k in b ensures b[k] == u[k] {
    }
  }

  /** Unlike the single update, a batch keeps the note drafts of the legs it updated. */
  lemma BatchKeepsDrafts(legs: Legs, page: Page, status: LegStatus)
    requires page.selected != {}
    ensures BatchUpdate(legs, page, status, {}).page.drafts == page.drafts
  {
  }
}
