/** The staff page that corrects a certificate sent back for revision
    (app/staff/revisi/page.tsx): it loads the row by its number, lets the
    content be edited, and resubmits it pending with the note cleared. The
    number itself is shown but cannot be edited. */
module StaffRevisi {
  import opened Wrappers
  import opened SkrdStore
  import opened AmountInput
  import opened Lifecycle
  import StaffCreate

  /** `handleValidate`: only the owner, the address, the amount and the
      department head must be filled in. */
  predicate CanConfirmRevisi(f: StaffCreate.Fields, jumlah: string) {
    f.namaPemilik != "" && f.alamatBangunan != "" && jumlah != "" && f.kepalaDinas != ""
  }

  /** Every form the create page accepts is accepted here, but not the other
      way round: a revision may clear the account code or the levy type. */
  lemma RevisiAcceptsMore(f: StaffCreate.Fields, jumlah: string)
    ensures StaffCreate.CanConfirm(f, jumlah) ==> CanConfirmRevisi(f, jumlah)
    ensures var g := f.(kodeRekening := "");
      CanConfirmRevisi(g, jumlah) == CanConfirmRevisi(f, jumlah) && !StaffCreate.CanConfirm(g, jumlah)
  {
  }

  /** The update `handleExecuteUpdate` sends: the edited content, the parsed
      amount, no note and status false. The number, the approval columns, the
      due date and the link are not in it. */
  function ResubmitPatch(f: StaffCreate.Fields, amount: AmountView): Patch {
    NoChange.(namaPemilik := Some(f.namaPemilik), alamatBangunan := Some(f.alamatBangunan),
              kodeRekening := Some(f.kodeRekening), jenisRetribusi := Some(f.jenisRetribusi),
              jumlah := Some(CleanAmount(amount.jumlah)), terbilang := Some(amount.terbilang),
              kepalaDinas := Some(f.kepalaDinas), catatanRevisi := Some(None), status := Some(Some(false)))
  }

  const SavePrefix: string := "Gagal menyimpan perubahan: "

  /** Resubmitting puts the row back to pending with the new content and no
      note, and keeps its id, its number, its request date, its payment and
      whatever approval columns it had. */
  lemma ResubmitEffect(r: Record, f: StaffCreate.Fields, amount: AmountView)
    ensures Patched(r, ResubmitPatch(f, amount))
         == r.(namaPemilik := f.namaPemilik, alamatBangunan := f.alamatBangunan,
               kodeRekening := f.kodeRekening, jenisRetribusi := f.jenisRetribusi,
               jumlah := CleanAmount(amount.jumlah), terbilang := amount.terbilang,
               kepalaDinas := f.kepalaDinas, catatanRevisi := None, status := Some(false))
  {
  }

  /** A row that is not issued stays well-formed when resubmitted. */
  lemma ResubmitKeepsWellformed(r: Record, f: StaffCreate.Fields, amount: AmountView)
    requires Wellformed(r) && !Approved(r)
    ensures Wellformed(Patched(r, ResubmitPatch(f, amount)))
  {
  }

  /** The page does not look at the status of the row it loads, so an issued
      row can be resubmitted; it then is pending yet keeps its approver and
      issue date. */
  lemma ResubmitIssuedBreaks(r: Record, f: StaffCreate.Fields, amount: AmountView)
    requires Wellformed(r) && Approved(r)
    ensures !Wellformed(Patched(r, ResubmitPatch(f, amount)))
  {
  }

  datatype LoadOutcome =
    | NoParam    // no number in the address: nothing is loaded
    | Loaded
    | BackToDashboard   // the select failed, or the stored amount is null

  datatype SaveOutcome = Saved | SaveFailed(alert: string)

  /** The page's state. */
  class RevisiPage {
    var idSurat: Option<int>
    var nomorSurat: string
    var fields: StaffCreate.Fields
    var catatanRevisi: Option<string>
    var amount: AmountView
    var showConfirmModal: bool

    constructor()
      ensures idSurat.None? && nomorSurat == "" && fields == StaffCreate.BlankFields
      ensures catatanRevisi.None? && amount == Empty && !showConfirmModal
    {
      idSurat := None;
      nomorSurat := "";
      fields := StaffCreate.BlankFields;
      catatanRevisi := None;
      amount := Empty;
      showConfirmModal := false;
    }

    /** `fetchDetailSKRD`. The columns are copied one by one; reading a null
        amount throws after they are copied, before the amount is shown. */
    method Load(table: Table, param: Option<string>, fails: bool) returns (outcome: LoadOutcome)
      modifies this
      ensures showConfirmModal == old(showConfirmModal)
      ensures outcome == NoParam <==> param.None? || param == Some("")
      ensures outcome == NoParam ==> idSurat == old(idSurat) && nomorSurat == old(nomorSurat) && fields == old(fields)
                                     && catatanRevisi == old(catatanRevisi) && amount == old(amount)
      ensures outcome != NoParam ==> var found := if fails then None else SingleByNomor(table.rows, param.value);
        && (found.None? ==> outcome == BackToDashboard && idSurat == old(idSurat) && nomorSurat == old(nomorSurat)
                            && fields == old(fields) && catatanRevisi == old(catatanRevisi) && amount == old(amount))
        && (found.Some? ==> var r := found.value;
              && idSurat == Some(r.id) && nomorSurat == r.nomorSurat && catatanRevisi == r.catatanRevisi
              && fields == StaffCreate.Fields(r.namaPemilik, r.alamatBangunan, r.kodeRekening,
                                              r.jenisRetribusi, r.kepalaDinas)
              && (outcome == Loaded <==> r.jumlah.Some?)
              && (outcome == Loaded ==> amount == AmountView(LoadedAmount(r.jumlah.value), r.terbilang))
              && (outcome == BackToDashboard ==> amount == old(amount)))
    {
      if param.None? || param.value == "" {
        return NoParam;
      }
      var data := table.SelectSingle(param.value, fails);
      if data.None? {
        return BackToDashboard;
      }
      var r := data.value;
      idSurat := Some(r.id);
      nomorSurat := r.nomorSurat;
      fields := StaffCreate.Fields(r.namaPemilik, r.alamatBangunan, r.kodeRekening, r.jenisRetribusi, r.kepalaDinas);
      catatanRevisi := r.catatanRevisi;
      if r.jumlah.None? {
        return BackToDashboard;
      }
      amount := AmountView(LoadedAmount(r.jumlah.value), r.terbilang);
      return Loaded;
    }

    /** `handleJumlahChange`, as on the create page. */
    method HandleJumlahChange(input: string)
      modifies this
      ensures amount == AmountChange(input) && Consistent(amount)
      ensures idSurat == old(idSurat) && nomorSurat == old(nomorSurat) && fields == old(fields)
      ensures catatanRevisi == old(catatanRevisi) && showConfirmModal == old(showConfirmModal)
    {
      AmountChangeConsistent(input);
      amount := AmountChange(input);
    }

    /** `handleValidate` */
    method HandleValidate()
      modifies this
      ensures showConfirmModal == (old(showConfirmModal) || CanConfirmRevisi(fields, amount.jumlah))
      ensures idSurat == old(idSurat) && nomorSurat == old(nomorSurat) && fields == old(fields)
      ensures catatanRevisi == old(catatanRevisi) && amount == old(amount)
    {
      if !CanConfirmRevisi(fields, amount.jumlah) {
        return;
      }
      showConfirmModal := true;
    }

    /** `handleExecuteUpdate`: update the row with the loaded id. Before a
        load the id is null; whether the store then reports an error is left
        to `fails`, and no row is changed either way. */
    method ExecuteUpdate(table: Table, fails: bool, errorMessage: string) returns (outcome: SaveOutcome)
      requires table.Valid()
      modifies this, table
      ensures table.Valid() && !showConfirmModal
      ensures idSurat == old(idSurat) && nomorSurat == old(nomorSurat) && fields == old(fields)
      ensures catatanRevisi == old(catatanRevisi) && amount == old(amount)
      ensures outcome == Saved <==> !fails
      ensures outcome.SaveFailed? ==> table.rows == old(table.rows) && outcome.alert == StaffCreate.ErrorAlert(SavePrefix, errorMessage)
      ensures outcome == Saved ==>
        table.rows == (if idSurat.Some? then UpdateWhere(old(table.rows), idSurat.value, ResubmitPatch(fields, amount))
                       else old(table.rows))
    {
      var ok := true;
      if idSurat.Some? {
        ok := table.Update(idSurat.value, ResubmitPatch(fields, amount), fails);
      } else if fails {
        ok := false;
      }
      showConfirmModal := false;
      if !ok {
        return SaveFailed(StaffCreate.ErrorAlert(SavePrefix, errorMessage));
      }
      return Saved;
    }
  }
}
