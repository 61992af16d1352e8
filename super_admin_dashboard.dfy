/** The account list of the super administrator
    (app/super_admin/dashboard/page.tsx): search, the active/inactive
    counters, the role label, and switching an account on or off. */
module SuperAdminDashboard {
  import opened Wrappers
  import opened JsString
  import opened Profiles

  /** `(x || '')`: a missing column reads as the empty string. */
  function OrEmpty(s: Option<string>): string {
    if s.Some? then s.value else ""
  }

  /** The search box matches the email, the name or the NIP, ignoring case. */
  predicate UserMatches(p: Profile, query: string) {
    var q := ToLower(query);
    Includes(ToLower(OrEmpty(p.email)), q) || Includes(ToLower(OrEmpty(p.namaLengkap)), q)
    || Includes(ToLower(OrEmpty(p.nip)), q)
  }

  /** `filteredData`: the matching accounts, in their order. */
  function FilterUsers(users: seq<Profile>, query: string): (r: seq<Profile>)
    ensures forall x :: x in r <==> x in users && UserMatches(x, query)
    ensures |r| <= |users|
  {
    if users == [] then []
    else (if UserMatches(users[0], query) then [users[0]] else []) + FilterUsers(users[1..], query)
  }

  /** An empty search box lists every account, in order. */
  lemma {:induction false} EmptyQueryShowsAll(users: seq<Profile>)
    ensures FilterUsers(users, "") == users
    decreases |users|
  {
    if users != [] {
      IncludesEmpty(ToLower(OrEmpty(users[0].email)));
      EmptyQueryShowsAll(users[1..]);
    }
  }

  /** `formatRole`: the three known roles get their display names; anything
      else is shown as it is, or "-" when it is missing or empty. */
  function FormatRole(role: Option<string>): (shown: string)
    ensures shown != ""
    ensures role == Some("super_admin") ==> shown == "Super Admin"
    ensures role == Some("kepala_dinas") ==> shown == "Kepala Dinas"
    ensures role == Some("staff") ==> shown == "Staff"
    ensures role.Some? && role.value !in {"super_admin", "kepala_dinas", "staff"} && role.value != ""
            ==> shown == role.value
    ensures role.None? || role == Some("") ==> shown == "-"
  {
    if role == Some("super_admin") then "Super Admin"
    else if role == Some("kepala_dinas") then "Kepala Dinas"
    else if role == Some("staff") then "Staff"
    else if role.Some? && role.value != "" then role.value
    else "-"
  }

  /** The page's state. */
  class Dashboard {
    var dataUsers: seq<Profile>
    var modalOpen: bool
    var modalId: Option<string>
    var modalStatus: Option<bool>

    constructor()
      ensures dataUsers == [] && !modalOpen && modalId.None? && modalStatus == Some(false)
    {
      dataUsers := [];
      modalOpen := false;
      modalId := None;
      modalStatus := Some(false);
    }

    /** `openConfirmModal(item.id, item.is_active)` */
    method OpenConfirmModal(id: string, currentStatus: Option<bool>)
      modifies this
      ensures modalOpen && modalId == Some(id) && modalStatus == currentStatus
      ensures dataUsers == old(dataUsers)
    {
      modalOpen := true;
      modalId := Some(id);
      modalStatus := currentStatus;
    }

    /** `handleConfirmAction`: without an id nothing happens. Otherwise the
        account's flag becomes the negation of the status the dialog was
        opened with (a null status negates to true), in the store and then in
        the list; a failed update keeps the list and the dialog and raises
        an alert. */
    method HandleConfirmAction(table: ProfileTable, fails: bool) returns (alert: Option<string>)
      modifies this, table
      ensures modalId == old(modalId) && modalStatus == old(modalStatus)
      ensures old(modalId).None? || old(modalId) == Some("") ==>
        alert.None? && table.rows == old(table.rows) && dataUsers == old(dataUsers) && modalOpen == old(modalOpen)
      ensures old(modalId).Some? && old(modalId) != Some("") ==>
        var v := old(modalStatus) != Some(true);
        && (fails ==> alert == Some("Gagal mengubah status.") && table.rows == old(table.rows)
                      && dataUsers == old(dataUsers) && modalOpen == old(modalOpen))
        && (!fails ==> alert.None? && !modalOpen && table.rows == SetActive(old(table.rows), old(modalId).value, v)
                       && dataUsers == SetActive(old(dataUsers), old(modalId).value, v))
    {
      var id, currentStatus := modalId, modalStatus;
      if id.None? || id.value == "" {
        return None;
      }
      var newStatus := !(currentStatus == Some(true));
      var ok := table.UpdateActive(id.value, newStatus, fails);
      if !ok {
        return Some("Gagal mengubah status.");
      }
      dataUsers := SetActive(dataUsers, id.value, newStatus);
      modalOpen := false;
      return None;
    }
  }

  /** Opening the dialog on the account at `k` and confirming moves that
      account to the other counter. */
  lemma ToggleMovesCounter(users: seq<Profile>, k: nat)
    requires UniqueIds(users) && k < |users| && users[k].isActive.Some?
    ensures var v := users[k].isActive != Some(true);
      var after := SetActive(users, users[k].id, v);
      && CountActive(after, v) == CountActive(users, v) + 1
      && CountActive(after, !v) == CountActive(users, !v) - 1
  {
    var b := users[k].isActive.value;
    assert users[k].isActive == Some(b);
    var v := !b;
    SetActiveCounts(users, k, v);
    assert users[k].isActive != Some(v) && users[k].isActive == Some(!v);
  }
}
