/** The head of department's dashboard (app/kepala_dinas/dashboard/page.tsx):
    the same two tabs as the staff list, with an alert when the read fails. */
module KadisDashboard {
  import opened SkrdStore
  import opened SkrdListing
  import KadisDetail

  const LoadFailed: string := "Gagal memuat data."

  /** Every row on the pending tab offers approval and revision on its
      detail page, but so does a row whose status is null, which is on
      neither tab. */
  lemma PendingTabOffersActions(r: Record)
    ensures OnTab(r, Pending) ==> KadisDetail.ActionsOffered(r)
    ensures r.status.None? ==> KadisDetail.ActionsOffered(r) && !OnTab(r, Pending) && !OnTab(r, Published)
  {
  }

  /** What a read of the rows gives the page. */
  datatype Loaded = Loaded(data: seq<Record>, countPending: nat, countPublished: nat) | LoadError(alert: string)

  /** `fetchData`: the rows and their counters, or the alert when the read
      fails; a failed read leaves the page as it was. While the search box is
      empty, each counter is the length of its tab. */
  function FetchData(rows: seq<Record>, fails: bool): (l: Loaded)
    ensures fails <==> l == LoadError(LoadFailed)
    ensures l.Loaded? ==> l.data == rows
    ensures l.Loaded? ==> l.countPending == |Filtered(rows, "", Pending)|
    ensures l.Loaded? ==> l.countPublished == |Filtered(rows, "", Published)|
    ensures l.Loaded? && (forall i :: 0 <= i < |rows| ==> rows[i].status.Some?) ==>
      l.countPending + l.countPublished == |rows|
  {
    if fails then LoadError(LoadFailed)
    else
      CounterIsTabLength(rows, Pending);
      CounterIsTabLength(rows, Published);
      CountsPartition(rows);
      Loaded(rows, CountStatus(rows, false), CountStatus(rows, true))
  }
}
