/** The head of department's view of one certificate
    (app/kepala_dinas/detail/page.tsx): approve it, which issues it, or send
    it back to staff with a note. */
module KadisDetail {
  import opened Wrappers
  import opened JsString
  import opened SkrdStore
  import opened Lifecycle

  const NoSession: string := "Sesi login tidak ditemukan."

  /** `{!data.status && (...)}`: the two actions are offered only for a row
      that is not issued. */
  predicate ActionsOffered(r: Record) {
    !Approved(r)
  }

  /** Approval takes a row out of the actions, and sending it back brings it
      back in; in both cases the row stays well-formed. */
  lemma ActionsAfter(r: Record, user: string, today: int, link: string, note: string)
    ensures !ActionsOffered(Patched(r, ApprovePatch(user, today, link)))
    ensures ActionsOffered(Patched(r, RevisionPatch(note)))
  {
    ApproveIssues(r, user, today, link);
    RevisionWithdraws(r, note);
  }

  /** `fetchDetail`: with no number in the address nothing is read; a failed
      single-row select leaves the data shown before. */
  function Refetched(data: Option<Record>, rows: seq<Record>, param: Option<string>, fails: bool): (d: Option<Record>)
    ensures d != data ==> d.Some? && d.value in rows && param.Some? && d.value.nomorSurat == param.value
    ensures param.Some? && param.value != "" && !fails && |WithNomor(rows, param.value)| == 1 ==>
      d == Some(WithNomor(rows, param.value)[0])
    ensures param.None? || param.value == "" || fails || |WithNomor(rows, param.value)| != 1 ==> d == data
  {
    if param.None? || param.value == "" || fails then data
    else match SingleByNomor(rows, param.value)
      case None => data
      case Some(r) => Some(r)
  }

  /** The page's state. */
  class DetailPage {
    const param: Option<string>
    var data: Option<Record>
    var alasanRevisi: string
    var showModalRevisi: bool
    var showValidationModal: bool

    constructor(param: Option<string>)
      ensures this.param == param && data.None? && alasanRevisi == ""
      ensures !showModalRevisi && !showValidationModal
    {
      this.param := param;
      data := None;
      alasanRevisi := "";
      showModalRevisi := false;
      showValidationModal := false;
    }

    method FetchDetail(table: Table, fails: bool)
      modifies this
      ensures data == Refetched(old(data), table.rows, param, fails)
      ensures alasanRevisi == old(alasanRevisi) && showModalRevisi == old(showModalRevisi)
      ensures showValidationModal == old(showValidationModal)
    {
      if param.None? || param.value == "" {
        return;
      }
      var result := table.SelectSingle(param.value, fails);
      if result.Some? {
        data := result;
      }
    }

    /** `executeValidasi`: without a signed-in user nothing is written.
        Otherwise the row with the shown id is issued by that user on `today`
        with the verification link for its number under `origin`. */
    method ExecuteValidasi(table: Table, session: Option<string>, today: int, origin: string,
                           fails: bool, errorMessage: string, refetchFails: bool)
      returns (alert: Option<string>)
      requires data.Some? && table.Valid()
      modifies this, table
      ensures table.Valid() && !showValidationModal
      ensures alasanRevisi == old(alasanRevisi) && showModalRevisi == old(showModalRevisi)
      ensures session.None? ==>
        table.rows == old(table.rows) && data == old(data)
        && alert == Some("Terjadi kesalahan: " + NoSession)
      ensures session.Some? && fails ==>
        table.rows == old(table.rows) && data == old(data)
        && alert == Some("Terjadi kesalahan: " + errorMessage)
      ensures session.Some? && !fails ==>
        alert.None?
        && table.rows == UpdateWhere(old(table.rows), old(data).value.id,
             ApprovePatch(session.value, today, VerifyLink(origin, old(data).value.nomorSurat)))
        && data == Refetched(old(data), table.rows, param, refetchFails)
    {
      if session.None? {
        showValidationModal := false;
        return Some("Terjadi kesalahan: " + NoSession);
      }
      var link := VerifyLink(origin, data.value.nomorSurat);
      var ok := table.Update(data.value.id, ApprovePatch(session.value, today, link), fails);
      showValidationModal := false;
      if !ok {
        return Some("Terjadi kesalahan: " + errorMessage);
      }
      FetchDetail(table, refetchFails);
      return None;
    }

    /** `handleAjukanRevisi`: a note that is blank after trimming does
        nothing; without a signed-in user nothing is written and the dialog
        stays open. Otherwise the row goes back to staff with the note as
        typed, and the dialog closes and clears. */
    method HandleAjukanRevisi(table: Table, session: Option<string>, fails: bool, errorMessage: string,
                              refetchFails: bool)
      returns (alert: Option<string>)
      requires data.Some? && table.Valid()
      modifies this, table
      ensures table.Valid() && showValidationModal == old(showValidationModal)
      ensures Trim(old(alasanRevisi)) == "" ==>
        alert.None? && table.rows == old(table.rows)
        && data == old(data) && alasanRevisi == old(alasanRevisi) && showModalRevisi == old(showModalRevisi)
      ensures Trim(old(alasanRevisi)) != "" && (session.None? || fails) ==>
        table.rows == old(table.rows) && data == old(data)
        && alasanRevisi == old(alasanRevisi) && showModalRevisi == old(showModalRevisi)
        && alert == Some("Gagal mengajukan revisi: " + (if session.None? then NoSession else errorMessage))
      ensures Trim(old(alasanRevisi)) != "" && session.Some? && !fails ==>
        alert.None? && !showModalRevisi && alasanRevisi == ""
        && table.rows == UpdateWhere(old(table.rows), old(data).value.id, RevisionPatch(old(alasanRevisi)))
        && data == Refetched(old(data), table.rows, param, refetchFails)
    {
      if Trim(alasanRevisi) == "" {
        return None;
      }
      if session.None? {
        return Some("Gagal mengajukan revisi: " + NoSession);
      }
      var ok := table.Update(data.value.id, RevisionPatch(alasanRevisi), fails);
      if !ok {
        return Some("Gagal mengajukan revisi: " + errorMessage);
      }
      showModalRevisi := false;
      alasanRevisi := "";
      FetchDetail(table, refetchFails);
      return None;
    }
  }
}
