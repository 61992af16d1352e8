/** The certificate lists of the staff and head-of-department dashboards
    (app/staff/dashboard/page.tsx, app/kepala_dinas/dashboard/page.tsx): the
    two tabs, the search box and the counters above them. Both pages compute
    them the same way. */
module SkrdListing {
  import opened Wrappers
  import opened JsString
  import opened SkrdStore
  import opened Lifecycle

  datatype Tab = Pending | Published

  /** The search box matches the number or the owner's name, ignoring case. */
  predicate MatchesSearch(r: Record, query: string) {
    var q := ToLower(query);
    Includes(ToLower(r.nomorSurat), q) || Includes(ToLower(r.namaPemilik), q)
  }

  /** `item.status === false` on the pending tab, `=== true` on the other: a
      null status is on neither. */
  predicate OnTab(r: Record, tab: Tab) {
    r.status == Some(tab == Published)
  }

  /** A row with a status is on exactly one tab. */
  lemma ExactlyOneTab(r: Record)
    requires r.status.Some?
    ensures OnTab(r, Pending) != OnTab(r, Published)
  {
    var b := r.status.value;
    assert r.status == Some(b);
  }

  /** `filteredData`: the rows on the tab that match the search, in their order. */
  function Filtered(rows: seq<Record>, query: string, tab: Tab): (r: seq<Record>)
    ensures forall x :: x in r <==> x in rows && MatchesSearch(x, query) && OnTab(x, tab)
    ensures |r| <= |rows|
  {
    if rows == [] then []
    else
      (if MatchesSearch(rows[0], query) && OnTab(rows[0], tab) then [rows[0]] else [])
      + Filtered(rows[1..], query, tab)
  }

  /** `allData.filter(item => item.status === s).length` */
  function CountStatus(rows: seq<Record>, s: bool): (n: nat)
    ensures n <= |rows|
  {
    if rows == [] then 0
    else (if rows[0].status == Some(s) then 1 else 0) + CountStatus(rows[1..], s)
  }

  function CountNull(rows: seq<Record>): (n: nat)
    ensures n <= |rows|
  {
    if rows == [] then 0
    else (if rows[0].status.None? then 1 else 0) + CountNull(rows[1..])
  }

  /** Every row is pending, published or has a null status, so the two
      counters add up to the number of rows exactly when no status is null. */
  lemma {:induction false} CountsPartition(rows: seq<Record>)
    ensures CountStatus(rows, false) + CountStatus(rows, true) + CountNull(rows) == |rows|
    ensures CountStatus(rows, false) + CountStatus(rows, true) == |rows|
            <==> forall i :: 0 <= i < |rows| ==> rows[i].status.Some?
    decreases |rows|
  {
    if rows != [] {
      CountsPartition(rows[1..]);
      assert CountStatus(rows, false) == (if rows[0].status == Some(false) then 1 else 0) + CountStatus(rows[1..], false);
      assert CountStatus(rows, true) == (if rows[0].status == Some(true) then 1 else 0) + CountStatus(rows[1..], true);
      match rows[0].status {
        case None =>
        case Some(b) => assert rows[0].status == Some(b) && (b || !b);
      }
      if forall i :: 0 <= i < |rows| ==> rows[i].status.Some? {
        forall i | 0 <= i < |rows[1..]| ensures rows[1..][i].status.Some? { assert rows[1..][i] == rows[i + 1]; }
        assert rows[0].status.Some? && CountNull(rows[1..]) == 0;
      } else {
        var j :| 0 <= j < |rows| && rows[j].status.None?;
        if j > 0 {
          assert rows[1..][j - 1].status.None?;
        }
      }
    }
  }

  /** The counter above a tab is the length of that tab's list while the
      search box is empty. */
  lemma {:induction false} CounterIsTabLength(rows: seq<Record>, tab: Tab)
    ensures |Filtered(rows, "", tab)| == CountStatus(rows, tab == Published)
    decreases |rows|
  {
    if rows != [] {
      CounterIsTabLength(rows[1..], tab);
      IncludesEmpty(ToLower(rows[0].nomorSurat));
      assert MatchesSearch(rows[0], "");
    }
  }

  /** Searching for a row's number, in any letter case, keeps the row. */
  lemma SearchFindsOwnNumber(r: Record, query: string)
    requires ToLower(query) == ToLower(r.nomorSurat)
    ensures MatchesSearch(r, query)
  {
    assert ToLower(query) <= ToLower(r.nomorSurat);
  }

  /** Deleting the row at `k`, when it is pending, lowers the pending count
      by one and leaves the published count alone. */
  lemma DeletePendingCount(rows: seq<Record>, k: nat)
    requires UniqueIds(rows) && k < |rows| && rows[k].status == Some(false)
    ensures CountStatus(DeleteWhere(rows, rows[k].id), false) == CountStatus(rows, false) - 1
    ensures CountStatus(DeleteWhere(rows, rows[k].id), true) == CountStatus(rows, true)
  {
    DeleteAt(rows, k);
    CountRemove(rows, k, false);
    CountRemove(rows, k, true);
  }

  /** Cutting out position `k` removes exactly that row's contribution. */
  lemma CountRemove(rows: seq<Record>, k: nat, s: bool)
    requires k < |rows|
    ensures CountStatus(rows[..k] + rows[k + 1..], s)
            == CountStatus(rows, s) - (if rows[k].status == Some(s) then 1 else 0)
  {
    assert rows == rows[..k] + ([rows[k]] + rows[k + 1..]);
    CountConcat(rows[..k], [rows[k]] + rows[k + 1..], s);
    CountConcat([rows[k]], rows[k + 1..], s);
    CountConcat(rows[..k], rows[k + 1..], s);
  }

  lemma {:induction false} CountConcat(a: seq<Record>, b: seq<Record>, s: bool)
    ensures CountStatus(a + b, s) == CountStatus(a, s) + CountStatus(b, s)
    decreases |a|
  {
    if a == [] {
      assert a + b == b;
    } else {
      CountConcat(a[1..], b, s);
      assert (a + b)[1..] == a[1..] + b;
    }
  }

  /** The date column: the request date on the pending tab, the issue date
      (or "-" when there is none) on the other. */
  function DateCell(tab: Tab, r: Record): Option<int> {
    if tab == Pending then Some(r.tanggalPermohonan) else r.tanggalTerbit
  }

  /** A well-formed row on the published tab always shows its issue date. */
  lemma PublishedShowsIssueDate(r: Record)
    requires Wellformed(r) && OnTab(r, Published)
    ensures DateCell(Published, r).Some?
  {
  }

  /** `item.status_pembayaran === 'LUNAS' ? 'LUNAS' : 'BELUM'` */
  function PaymentLabel(r: Record): (shown: string)
    ensures shown == "LUNAS" || shown == "BELUM"
    ensures shown == "LUNAS" <==> r.statusPembayaran == Some("LUNAS")
  {
    if r.statusPembayaran == Some("LUNAS") then "LUNAS" else "BELUM"
  }
}
