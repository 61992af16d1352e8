/** How a certificate moves between its states. Staff create it pending
    (`status` false); the head of department either approves it, which
    issues it with an issue date, a due date thirty days later and a
    verification link, or sends it back with a note; staff then resubmit it
    pending. The updates are the ones app/kepala_dinas/detail/page.tsx and
    app/staff/revisi/page.tsx send. */
module Lifecycle {
  import opened Wrappers
  import opened SkrdStore
  import opened UriComponent

  /** `tanggalJatuhTempo.setDate(getDate() + 30)` */
  const DueDays: int := 30

  /** The query parameter the verification page reads. */
  const NomorParam: string := "nomor_surat"

  /** `data.status` is truthy: the certificate is issued. */
  predicate Approved(r: Record) {
    r.status == Some(true)
  }

  /** The states a row can be in: an issued row has its approver, its issue
      date, the due date thirty days after it, a link and no note; any other
      row has neither approver nor issue date. */
  predicate Wellformed(r: Record) {
    if Approved(r) then
      r.approvedBy.Some? && r.tanggalTerbit.Some?
      && r.jatuhTempo == Some(r.tanggalTerbit.value + DueDays)
      && r.barcodeUrl.Some? && r.catatanRevisi.None?
    else
      r.approvedBy.None? && r.tanggalTerbit.None?
  }

  predicate AllWellformed(rows: seq<Record>) {
    forall i :: 0 <= i < |rows| ==> Wellformed(rows[i])
  }

  /** `${origin}/verify?nomor_surat=${encodeURIComponent(nomor)}` */
  function VerifyLink(origin: string, nomor: string): string {
    (origin + "/verify") + "?" + NomorParam + "=" + Encode(nomor)
  }

  /** The link printed on an issued certificate leads the verification page
      back to exactly its number, whatever characters the number holds. */
  lemma VerifyLinkResolves(origin: string, nomor: string)
    requires '?' !in origin && '#' !in origin
    ensures SearchParam(VerifyLink(origin, nomor), NomorParam) == Some(nomor)
  {
    var base := origin + "/verify";
    assert '?' !in base && '#' !in base by {
      assert forall i :: 0 <= i < |base| ==> base[i] in origin || base[i] in "/verify";
    }
    assert forall i :: 0 <= i < |NomorParam| ==> Unreserved(NomorParam[i]);
    LinkParamRoundTrip(base, NomorParam, nomor);
  }

  /** `executeValidasi`'s update, by `user` on day `today`. */
  function ApprovePatch(user: string, today: int, link: string): Patch {
    NoChange.(status := Some(Some(true)), approvedBy := Some(Some(user)),
              tanggalTerbit := Some(Some(today)), jatuhTempo := Some(Some(today + DueDays)),
              catatanRevisi := Some(None), barcodeUrl := Some(Some(link)))
  }

  /** `handleAjukanRevisi`'s update with the note as typed. The due date and
      the link are not in it. */
  function RevisionPatch(note: string): Patch {
    NoChange.(status := Some(Some(false)), catatanRevisi := Some(Some(note)),
              approvedBy := Some(None), tanggalTerbit := Some(None))
  }

  /** Approval issues any row: it is well-formed, and only the state columns
      change. */
  lemma ApproveIssues(r: Record, user: string, today: int, link: string)
    ensures var a := Patched(r, ApprovePatch(user, today, link));
      && Wellformed(a) && Approved(a)
      && a.approvedBy == Some(user) && a.tanggalTerbit == Some(today)
      && a.jatuhTempo == Some(today + DueDays) && a.barcodeUrl == Some(link)
      && a == r.(status := a.status, approvedBy := a.approvedBy, tanggalTerbit := a.tanggalTerbit,
                 jatuhTempo := a.jatuhTempo, catatanRevisi := a.catatanRevisi, barcodeUrl := a.barcodeUrl)
  {
  }

  /** Sending back withdraws the approval from any row and records the note;
      the due date and the link of an earlier approval stay. */
  lemma RevisionWithdraws(r: Record, note: string)
    ensures var b := Patched(r, RevisionPatch(note));
      && Wellformed(b) && !Approved(b) && b.status == Some(false)
      && b.catatanRevisi == Some(note)
      && b == r.(status := b.status, approvedBy := None, tanggalTerbit := None, catatanRevisi := b.catatanRevisi)
  {
  }

  /** An update by id keeps every row well-formed when it leaves the rows it
      patches well-formed. */
  lemma {:induction false} UpdateKeepsWellformed(rows: seq<Record>, id: int, p: Patch)
    requires AllWellformed(rows)
    requires forall i :: 0 <= i < |rows| && rows[i].id == id ==> Wellformed(Patched(rows[i], p))
    ensures AllWellformed(UpdateWhere(rows, id, p))
    decreases |rows|
  {
    if rows != [] {
      assert forall i :: 1 <= i < |rows| ==> rows[1..][i - 1] == rows[i];
      UpdateKeepsWellformed(rows[1..], id, p);
      var u := UpdateWhere(rows, id, p);
      assert u == [if rows[0].id == id then Patched(rows[0], p) else rows[0]] + UpdateWhere(rows[1..], id, p);
      assert forall i :: 1 <= i < |u| ==> u[i] == UpdateWhere(rows[1..], id, p)[i - 1];
    }
  }

  /** A new row is pending and well-formed. */
  lemma InsertedWellformed(n: NewRow, id: int, today: int)
    requires n.status == Some(false)
    ensures Wellformed(Inserted(n, id, today)) && !Approved(Inserted(n, id, today))
  {
  }

  /** Inserting a pending row keeps every row well-formed. */
  lemma InsertKeepsWellformed(rows: seq<Record>, n: NewRow, id: int, today: int)
    requires AllWellformed(rows) && n.status == Some(false)
    ensures AllWellformed(rows + [Inserted(n, id, today)])
  {
    var rows' := rows + [Inserted(n, id, today)];
    forall i | 0 <= i < |rows'| ensures Wellformed(rows'[i]) {
      if i < |rows| { assert rows'[i] == rows[i]; }
    }
  }
}
