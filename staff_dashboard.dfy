/** The staff dashboard (app/staff/dashboard/page.tsx): the list of
    certificates with a link per row, and deleting a pending one. */
module StaffDashboard {
  import opened Wrappers
  import opened JsString
  import opened SkrdStore
  import opened UriComponent
  import opened Lifecycle
  import opened SkrdListing
  import AmountInput
  import StaffCreate
  import StaffRevisi

  /** `item.catatan_revisi && !item.status`: a row sent back with a note. */
  predicate NeedsFix(r: Record) {
    r.catatanRevisi.Some? && r.catatanRevisi.value != "" && !Approved(r)
  }

  /** The row's link: the revision form for a row that needs fixing, the
      detail page otherwise, with the number as the query parameter. */
  function RowLink(r: Record): string {
    (if NeedsFix(r) then "/staff/revisi" else "/staff/detail") + "?" + NomorParam + "=" + Encode(r.nomorSurat)
  }

  /** Either page reads the row's own number back from the link. */
  lemma RowLinkResolves(r: Record)
    ensures SearchParam(RowLink(r), NomorParam) == Some(r.nomorSurat)
  {
    var base := if NeedsFix(r) then "/staff/revisi" else "/staff/detail";
    assert '?' !in base && '#' !in base;
    assert forall i :: 0 <= i < |NomorParam| ==> Unreserved(NomorParam[i]);
    LinkParamRoundTrip(base, NomorParam, r.nomorSurat);
  }

  /** A row the head of department sent back with a non-blank note shows the
      revision link, and a row that shows it can be resubmitted without
      breaking its state. */
  lemma FixLinkGuardsResubmit(r: Record, note: string, f: StaffCreate.Fields, amount: AmountInput.AmountView)
    ensures Trim(note) != "" ==> NeedsFix(Patched(r, RevisionPatch(note)))
    ensures NeedsFix(r) && Wellformed(r) ==> Wellformed(Patched(r, StaffRevisi.ResubmitPatch(f, amount)))
  {
    if note == "" {
      assert Trim(note) == "";
    }
    if NeedsFix(r) && Wellformed(r) {
      StaffRevisi.ResubmitKeepsWellformed(r, f, amount);
    }
  }

  /** `item.status === false`: only pending rows have a delete button. */
  predicate DeleteOffered(r: Record) {
    r.status == Some(false)
  }

  /** The page's state. */
  class Dashboard {
    var data: seq<Record>
    var countPending: int
    var countPublished: int
    var deleteOpen: bool
    var deleteId: Option<int>

    /** The counters are those of the list shown. */
    ghost predicate CountersMatch()
      reads this
    {
      countPending == CountStatus(data, false) && countPublished == CountStatus(data, true)
    }

    constructor()
      ensures data == [] && CountersMatch() && !deleteOpen && deleteId.None?
    {
      data := [];
      countPending := 0;
      countPublished := 0;
      deleteOpen := false;
      deleteId := None;
    }

    /** `fetchData`: the stored rows and their counters; a failed read
        changes nothing. */
    method FetchData(table: Table, fails: bool)
      modifies this
      ensures fails ==>
        data == old(data) && countPending == old(countPending) && countPublished == old(countPublished)
      ensures !fails ==> data == table.rows && CountersMatch()
      ensures deleteOpen == old(deleteOpen) && deleteId == old(deleteId)
    {
      if fails {
        return;
      }
      data := table.rows;
      countPending := CountStatus(data, false);
      countPublished := CountStatus(data, true);
    }

    /** `openDeleteModal`: refused for an issued row. */
    method OpenDeleteModal(id: int, status: Option<bool>)
      modifies this
      ensures status == Some(true) ==> deleteOpen == old(deleteOpen) && deleteId == old(deleteId)
      ensures status != Some(true) ==> deleteOpen && deleteId == Some(id)
      ensures data == old(data) && countPending == old(countPending) && countPublished == old(countPublished)
    {
      if status == Some(true) {
        return;
      }
      deleteOpen := true;
      deleteId := Some(id);
    }

    /** `executeDelete`: nothing happens without an id, or with id 0, which
        is falsy. Otherwise the row is deleted; on success it leaves the list
        and the pending counter goes down by one but not below zero. Either
        way the dialog closes. */
    method ExecuteDelete(table: Table, fails: bool)
      requires table.Valid()
      modifies this, table
      ensures table.Valid() && countPublished == old(countPublished)
      ensures old(deleteId).None? || old(deleteId) == Some(0) ==>
        table.rows == old(table.rows) && data == old(data) && countPending == old(countPending)
        && deleteOpen == old(deleteOpen) && deleteId == old(deleteId)
      ensures old(deleteId).Some? && old(deleteId) != Some(0) ==>
        !deleteOpen && deleteId.None?
        && table.rows == (if fails then old(table.rows) else DeleteWhere(old(table.rows), old(deleteId).value))
        && data == (if fails then old(data) else DeleteWhere(old(data), old(deleteId).value))
        && countPending == (if fails then old(countPending) else if old(countPending) > 0 then old(countPending) - 1 else 0)
      ensures old(CountersMatch()) && UniqueIds(old(data)) && old(deleteId).Some?
        && (exists k :: 0 <= k < |old(data)| && old(data)[k].id == old(deleteId).value && DeleteOffered(old(data)[k]))
        ==> CountersMatch()
    {
      var idToDelete := deleteId;
      if idToDelete.None? || idToDelete.value == 0 {
        return;
      }
      var ok := table.Delete(idToDelete.value, fails);
      if ok {
        if CountersMatch() && UniqueIds(data)
          && exists k :: 0 <= k < |data| && data[k].id == idToDelete.value && DeleteOffered(data[k])
        {
          var k :| 0 <= k < |data| && data[k].id == idToDelete.value && DeleteOffered(data[k]);
          DeletePendingCount(data, k);
        }
        data := DeleteWhere(data, idToDelete.value);
        countPending := if countPending > 0 then countPending - 1 else 0;
      }
      deleteOpen := false;
      deleteId := None;
    }
  }
}
