/** The account detail page of the super administrator
    (app/super_admin/detail/page.tsx): it loads one account, checks the
    edit, writes the profile and, when a new password is typed, asks the
    password endpoint to change it. */
module SuperAdminDetail {
  import opened Wrappers
  import opened JsString
  import opened Profiles

  const TooShort: string := "Password baru minimal 6 karakter!"
  const Mismatch: string := "Konfirmasi password tidak cocok!"
  const NeedsSignature: string := "Role Kepala Dinas memerlukan Tanda Tangan Elektronik. Silakan upload barcode."
  const KadisRole: string := "kepala_dinas"

  datatype Check = Confirm | Reject(alert: string)

  /** `handleValidateUpdate`. The length is JavaScript's, in UTF-16 units. */
  function ValidateUpdate(newPassword: string, confirmPassword: string, role: string,
                          ttdBarcodeUrl: string, newFile: Option<string>): (c: Check)
    ensures c == Confirm <==>
      (newPassword == "" || (Utf16Length(newPassword) >= 6 && newPassword == confirmPassword))
      && !(role == KadisRole && ttdBarcodeUrl == "" && newFile.None?)
    ensures c == Reject(TooShort) <==> newPassword != "" && Utf16Length(newPassword) < 6
    ensures c == Reject(Mismatch) <==>
      newPassword != "" && Utf16Length(newPassword) >= 6 && newPassword != confirmPassword
    ensures c == Reject(NeedsSignature) <==>
      (newPassword == "" || (Utf16Length(newPassword) >= 6 && newPassword == confirmPassword))
      && role == KadisRole && ttdBarcodeUrl == "" && newFile.None?
  {
    if newPassword != "" && Utf16Length(newPassword) < 6 then Reject(TooShort)
    else if newPassword != "" && newPassword != confirmPassword then Reject(Mismatch)
    else if role == KadisRole && ttdBarcodeUrl == "" && newFile.None? then Reject(NeedsSignature)
    else Confirm
  }

  /** An empty new password passes both password checks, whatever the
      confirmation holds. */
  lemma EmptyPasswordPasses(confirmPassword: string, role: string, ttdBarcodeUrl: string, newFile: Option<string>)
    ensures ValidateUpdate("", confirmPassword, role, ttdBarcodeUrl, newFile) != Reject(TooShort)
    ensures ValidateUpdate("", confirmPassword, role, ttdBarcodeUrl, newFile) != Reject(Mismatch)
  {
  }

  /** `finalTtdUrl`: the stored signature stays unless a department head
      uploaded a new file, whose public address replaces it. */
  function FinalTtdUrl(role: string, newFile: Option<string>, existing: string, uploaded: string): (url: string)
    ensures url == existing || url == uploaded
    ensures url != existing ==> role == KadisRole && newFile.Some?
  {
    if role == KadisRole && newFile.Some? then uploaded else existing
  }

  /** A department head who passed the check is saved with a signature:
      either the one already stored or a fresh upload. */
  lemma KadisKeepsSignature(newPassword: string, confirmPassword: string, ttdBarcodeUrl: string,
                            newFile: Option<string>, uploaded: string)
    requires ValidateUpdate(newPassword, confirmPassword, KadisRole, ttdBarcodeUrl, newFile) == Confirm
    requires uploaded != ""
    ensures FinalTtdUrl(KadisRole, newFile, ttdBarcodeUrl, uploaded) != ""
  {
  }

  datatype Outcome = Saved | Failed

  /** The page's state. */
  class DetailPage {
    const userId: Option<string>
    var namaLengkap: string
    var nip: string
    var email: string
    var role: string
    var isActive: Option<bool>
    var ttdBarcodeUrl: string
    var newFile: Option<string>
    var newPassword: string
    var confirmPassword: string
    var showConfirmModal: bool

    constructor(userId: Option<string>)
      ensures this.userId == userId && namaLengkap == "" && nip == "" && email == "" && role == "staff"
      ensures isActive == Some(true) && ttdBarcodeUrl == "" && newFile.None?
      ensures newPassword == "" && confirmPassword == "" && !showConfirmModal
    {
      this.userId := userId;
      namaLengkap, nip, email, role := "", "", "", "staff";
      isActive := Some(true);
      ttdBarcodeUrl := "";
      newFile := None;
      newPassword, confirmPassword := "", "";
      showConfirmModal := false;
    }

    /** `fetchUserDetail` with the row the single select found (`None` on
        an error): missing text columns read as empty, a missing role as
        staff. */
    method Load(found: Option<Profile>)
      modifies this
      ensures found.None? ==>
        namaLengkap == old(namaLengkap) && nip == old(nip) && email == old(email) && role == old(role)
        && isActive == old(isActive) && ttdBarcodeUrl == old(ttdBarcodeUrl)
      ensures found.Some? ==>
        var p := found.value;
        && namaLengkap == (if p.namaLengkap.Some? then p.namaLengkap.value else "")
        && nip == (if p.nip.Some? then p.nip.value else "")
        && email == (if p.email.Some? then p.email.value else "")
        && role == (if p.role.Some? && p.role.value != "" then p.role.value else "staff")
        && isActive == p.isActive
        && ttdBarcodeUrl == (if p.ttdBarcode.Some? then p.ttdBarcode.value else "")
      ensures newFile == old(newFile) && newPassword == old(newPassword)
      ensures confirmPassword == old(confirmPassword) && showConfirmModal == old(showConfirmModal)
    {
      if found.None? {
        return;
      }
      var p := found.value;
      namaLengkap := if p.namaLengkap.Some? then p.namaLengkap.value else "";
      nip := if p.nip.Some? then p.nip.value else "";
      email := if p.email.Some? then p.email.value else "";
      role := if p.role.Some? && p.role.value != "" then p.role.value else "staff";
      isActive := p.isActive;
      ttdBarcodeUrl := if p.ttdBarcode.Some? then p.ttdBarcode.value else "";
    }

    /** `handleExecuteUpdate`. A failed upload stops before anything is
        written; a failed profile update stops before the password request.
        The password endpoint is asked only for a non-empty new password,
        and `passwordRequested` says whether it was. Only full success
        clears the two password fields; the dialog closes in every case. */
    method ExecuteUpdate(table: ProfileTable, uploadFails: bool, uploaded: string,
                         updateFails: bool, passwordFails: bool)
      returns (passwordRequested: bool, outcome: Outcome)
      modifies this, table
      ensures !showConfirmModal
      ensures namaLengkap == old(namaLengkap) && nip == old(nip) && role == old(role)
      ensures isActive == old(isActive) && ttdBarcodeUrl == old(ttdBarcodeUrl)
      ensures email == old(email) && newFile == old(newFile)
      ensures var uploads := old(role) == KadisRole && old(newFile).Some?;
        var details := Details(old(namaLengkap), old(nip), old(role), old(isActive),
                               FinalTtdUrl(old(role), old(newFile), old(ttdBarcodeUrl), uploaded));
        && (uploads && uploadFails ==> outcome == Failed && !passwordRequested && table.rows == old(table.rows))
        && (!(uploads && uploadFails) ==>
              table.rows == (if updateFails || userId.None? then old(table.rows)
                             else SetDetails(old(table.rows), userId.value, details)))
        && (passwordRequested <==> !(uploads && uploadFails) && !updateFails && old(newPassword) != "")
        && (outcome == Saved <==> !(uploads && uploadFails) && !updateFails && !(passwordRequested && passwordFails))
      ensures outcome == Saved ==> newPassword == "" && confirmPassword == ""
      ensures outcome == Failed ==> newPassword == old(newPassword) && confirmPassword == old(confirmPassword)
    {
      var finalTtdUrl := ttdBarcodeUrl;
      passwordRequested := false;
      if role == KadisRole && newFile.Some? {
        if uploadFails {
          showConfirmModal := false;
          return false, Failed;
        }
        finalTtdUrl := uploaded;
      }
      var ok := table.UpdateDetails(userId, Details(namaLengkap, nip, role, isActive, finalTtdUrl), updateFails);
      if !ok {
        showConfirmModal := false;
        return false, Failed;
      }
      if newPassword != "" {
        passwordRequested := true;
        if passwordFails {
          showConfirmModal := false;
          return true, Failed;
        }
      }
      showConfirmModal := false;
      newPassword := "";
      confirmPassword := "";
      outcome := Saved;
    }
  }
}
