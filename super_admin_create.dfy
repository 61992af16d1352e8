/** The form that creates an account (app/super_admin/create/page.tsx): its
    checks, the signature link it sends, and the reset after success. */
module SuperAdminCreate {
  import opened Wrappers
  import opened JsString

  const MissingFields: string := "Harap isi semua bidang bertanda bintang (*)"
  const MissingSignature: string := "Kepala Dinas wajib mengunggah Tanda Tangan Elektronik (Barcode)"
  const DefaultRole: string := "staff"
  const KadisRole: string := "kepala_dinas"

  /** What a check decides: open the confirmation, or alert. */
  datatype Check = Confirm | Reject(alert: string)

  /** `handleValidate`: all four starred fields first, then the signature
      file a department head needs. */
  function ValidateCreate(email: string, password: string, nama: string, nip: string,
                          role: string, file: Option<string>): (c: Check)
    ensures c == Confirm <==> email != "" && password != "" && nama != "" && nip != ""
                               && (role == KadisRole ==> file.Some?)
    ensures c.Reject? && (email == "" || password == "" || nama == "" || nip == "") ==> c.alert == MissingFields
    ensures c.Reject? && email != "" && password != "" && nama != "" && nip != "" ==> c.alert == MissingSignature
  {
    if email == "" || password == "" || nama == "" || nip == "" then Reject(MissingFields)
    else if role == KadisRole && file.None? then Reject(MissingSignature)
    else Confirm
  }

  /** The NIP field keeps only digits and spaces; filtering again changes
      nothing more; and a character typed after `input` is appended to the
      field exactly when it is a digit or a space, so the typed digits and
      spaces are kept in their order. */
  lemma NipFilter(input: string, c: char)
    ensures forall i :: 0 <= i < |KeepDigitsAndSpaces(input)| ==> IsDigitOrSpace(KeepDigitsAndSpaces(input)[i])
    ensures KeepDigitsAndSpaces(KeepDigitsAndSpaces(input)) == KeepDigitsAndSpaces(input)
    ensures KeepDigitsAndSpaces(input + [c]) == KeepDigitsAndSpaces(input) + (if IsDigitOrSpace(c) then [c] else [])
  {
    KeepDigitsAndSpacesConcat(input, [c]);
    KeepDigitsAndSpacesOne(c);
  }

  /** The body posted to the account-creation endpoint. */
  datatype CreateRequest = CreateRequest(
    email: string, password: string, namaLengkap: string, nip: string, role: string, ttdBarcode: Option<string>)

  datatype Outcome = NotSent(alert: string) | Created | Failed(alert: string)

  /** The endpoint's error, or its fixed fallback. */
  function FailureAlert(error: Option<string>): (alert: string)
    ensures error.Some? && error.value != "" ==> alert == "Error: " + error.value
    ensures !(error.Some? && error.value != "") ==> alert == "Error: Gagal membuat akun user."
  {
    "Error: " + (if error.Some? && error.value != "" then error.value else "Gagal membuat akun user.")
  }

  /** The page's state. */
  class CreatePage {
    var namaLengkap: string
    var nip: string
    var email: string
    var password: string
    var role: string
    var file: Option<string>
    var showConfirmModal: bool

    constructor()
      ensures namaLengkap == "" && nip == "" && email == "" && password == ""
      ensures role == DefaultRole && file.None? && !showConfirmModal
    {
      namaLengkap, nip, email, password := "", "", "", "";
      role := DefaultRole;
      file := None;
      showConfirmModal := false;
    }

    /** `handleExecuteSubmit`. Only a department head with a file gets a
        signature link: the uploaded file's public address `publicUrl`; a
        failed upload stops before anything is sent. The request is
        returned as `sent`. On success every field is reset and the role is
        staff again; in every case the dialog closes. */
    method ExecuteSubmit(uploadFails: bool, uploadError: string, publicUrl: string,
                         responseOk: bool, responseError: Option<string>)
      returns (sent: Option<CreateRequest>, outcome: Outcome)
      modifies this
      ensures !showConfirmModal
      ensures var uploads := old(role) == KadisRole && old(file).Some?;
        && (uploads && uploadFails ==>
              sent.None? && outcome == NotSent("Error: Gagal unggah barcode: " + uploadError))
        && (!(uploads && uploadFails) ==>
              sent == Some(CreateRequest(old(email), old(password), old(namaLengkap), old(nip), old(role),
                                         if uploads then Some(publicUrl) else None)))
      ensures outcome == Created ==>
        namaLengkap == "" && nip == "" && email == "" && password == "" && role == DefaultRole && file.None?
      ensures outcome != Created ==>
        namaLengkap == old(namaLengkap) && nip == old(nip) && email == old(email)
        && password == old(password) && role == old(role) && file == old(file)
      ensures outcome == Created <==> sent.Some? && responseOk
      ensures sent.Some? && !responseOk ==> outcome == Failed(FailureAlert(responseError))
    {
      var ttdUrl: Option<string> := None;
      if role == KadisRole && file.Some? {
        if uploadFails {
          showConfirmModal := false;
          return None, NotSent("Error: Gagal unggah barcode: " + uploadError);
        }
        ttdUrl := Some(publicUrl);
      }
      sent := Some(CreateRequest(email, password, namaLengkap, nip, role, ttdUrl));
      if !responseOk {
        showConfirmModal := false;
        return sent, Failed(FailureAlert(responseError));
      }
      showConfirmModal := false;
      namaLengkap, nip, email, password := "", "", "", "";
      role := DefaultRole;
      file := None;
      outcome := Created;
    }
  }
}
