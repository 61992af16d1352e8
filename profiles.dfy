/** The `profiles` table: one row per account, keyed by the account's id. The
    super-admin pages list the rows, switch an account on or off, and edit
    one row; the login page reads the role and the active flag. */
module Profiles {
  import opened Wrappers

  /** One row; missing columns are `None`. */
  datatype Profile = Profile(
    id: string,
    email: Option<string>,
    namaLengkap: Option<string>,
    nip: Option<string>,
    role: Option<string>,
    isActive: Option<bool>,
    ttdBarcode: Option<string>)

  predicate UniqueIds(rows: seq<Profile>) {
    forall i, j :: 0 <= i < j < |rows| ==> rows[i].id != rows[j].id
  }

  /** `update({ is_active: v }).eq('id', id)`, and equally the page's
      `prev.map(item => item.id === id ? { ...item, is_active: v } : item)`:
      the rows with that id get the flag, the others stay, in order. */
  function SetActive(rows: seq<Profile>, id: string, v: bool): (r: seq<Profile>)
    ensures |r| == |rows|
    ensures forall i :: 0 <= i < |r| ==> r[i] == if rows[i].id == id then rows[i].(isActive := Some(v)) else rows[i]
  {
    if rows == [] then []
    else [if rows[0].id == id then rows[0].(isActive := Some(v)) else rows[0]] + SetActive(rows[1..], id, v)
  }

  /** The columns the account detail page writes. */
  datatype Details = Details(namaLengkap: string, nip: string, role: string, isActive: Option<bool>, ttdBarcode: string)

  /** `update(details).eq('id', id)` */
  function SetDetails(rows: seq<Profile>, id: string, d: Details): (r: seq<Profile>)
    ensures |r| == |rows|
    ensures forall i :: 0 <= i < |r| ==> r[i].id == rows[i].id && r[i].email == rows[i].email
    ensures forall i :: 0 <= i < |r| ==> rows[i].id != id ==> r[i] == rows[i]
    ensures forall i :: 0 <= i < |r| ==> rows[i].id == id ==>
      r[i].namaLengkap == Some(d.namaLengkap) && r[i].nip == Some(d.nip) && r[i].role == Some(d.role)
      && r[i].isActive == d.isActive && r[i].ttdBarcode == Some(d.ttdBarcode)
  {
    seq(|rows|, i requires 0 <= i < |rows| =>
      if rows[i].id == id
      then rows[i].(namaLengkap := Some(d.namaLengkap), nip := Some(d.nip), role := Some(d.role),
                    isActive := d.isActive, ttdBarcode := Some(d.ttdBarcode))
      else rows[i])
  }

  /** `filter(u => u.is_active === b).length` */
  function CountActive(rows: seq<Profile>, b: bool): (n: nat)
    ensures n <= |rows|
  {
    if rows == [] then 0
    else (if rows[0].isActive == Some(b) then 1 else 0) + CountActive(rows[1..], b)
  }

  /** Replacing one row changes a count only by what that row contributed. */
  lemma {:induction false} CountReplace(rows: seq<Profile>, k: nat, p: Profile, b: bool)
    requires k < |rows|
    ensures CountActive(rows[k := p], b)
            == CountActive(rows, b) - (if rows[k].isActive == Some(b) then 1 else 0)
               + (if p.isActive == Some(b) then 1 else 0)
    decreases k
  {
    if k > 0 {
      CountReplace(rows[1..], k - 1, p, b);
      assert rows[k := p][1..] == rows[1..][k - 1 := p];
    }
  }

  /** With distinct ids, switching the account at `k` to `v` moves it
      between the two counters and touches no other row. */
  lemma SetActiveCounts(rows: seq<Profile>, k: nat, v: bool)
    requires UniqueIds(rows) && k < |rows|
    ensures SetActive(rows, rows[k].id, v) == rows[k := rows[k].(isActive := Some(v))]
    ensures CountActive(SetActive(rows, rows[k].id, v), v)
            == CountActive(rows, v) + (if rows[k].isActive == Some(v) then 0 else 1)
    ensures CountActive(SetActive(rows, rows[k].id, v), !v)
            == CountActive(rows, !v) - (if rows[k].isActive == Some(!v) then 1 else 0)
  {
    var r := SetActive(rows, rows[k].id, v);
    assert r == rows[k := rows[k].(isActive := Some(v))];
    CountReplace(rows, k, rows[k].(isActive := Some(v)), v);
    CountReplace(rows, k, rows[k].(isActive := Some(v)), !v);
  }

  /** The stored rows. */
  class ProfileTable {
    var rows: seq<Profile>

    constructor(rows: seq<Profile>)
      ensures this.rows == rows
    {
      this.rows := rows;
    }

    /** `update({ is_active: v }).eq('id', id)`; on failure nothing changes. */
    method UpdateActive(id: string, v: bool, fails: bool) returns (ok: bool)
      modifies this
      ensures ok == !fails
      ensures rows == if ok then SetActive(old(rows), id, v) else old(rows)
    {
      if fails {
        return false;
      }
      rows := SetActive(rows, id, v);
      return true;
    }

    /** `update(details).eq('id', id)`. With a null id no row is changed;
        whether the store reports an error for it is left to `fails`. */
    method UpdateDetails(id: Option<string>, d: Details, fails: bool) returns (ok: bool)
      modifies this
      ensures ok == !fails
      ensures rows == if ok && id.Some? then SetDetails(old(rows), id.value, d) else old(rows)
    {
      if fails {
        return false;
      }
      if id.Some? {
        rows := SetDetails(rows, id.value, d);
      }
      return true;
    }
  }
}
