/** The `skrd` table: one row per levy certificate (Surat Ketetapan Retribusi
    Daerah). The pages read and write it through single-table calls: insert
    one row, update the rows with a given id, delete the rows with a given id,
    and select by `nomor_surat` expecting exactly one row. */
module SkrdStore {
  import opened Wrappers

  /** One row. Timestamps are whole days; `status` and the other nullable
      columns are `Option`s. An amount that was `NaN` when sent is stored as
      null, so `jumlah` is nullable too. */
  datatype Record = Record(
    id: int,
    nomorSurat: string,
    namaPemilik: string,
    alamatBangunan: string,
    kodeRekening: string,
    jenisRetribusi: string,
    jumlah: Option<int>,
    terbilang: string,
    kepalaDinas: string,
    status: Option<bool>,
    catatanRevisi: Option<string>,
    approvedBy: Option<string>,
    tanggalTerbit: Option<int>,
    jatuhTempo: Option<int>,
    barcodeUrl: Option<string>,
    statusPembayaran: Option<string>,
    tanggalPelunasan: Option<int>,
    tanggalPermohonan: int)

  /** The columns the staff form sends to `insert`. */
  datatype NewRow = NewRow(
    nomorSurat: string,
    namaPemilik: string,
    alamatBangunan: string,
    kodeRekening: string,
    jenisRetribusi: string,
    jumlah: Option<int>,
    terbilang: string,
    kepalaDinas: string,
    status: Option<bool>)

  /** The stored row for an inserted `NewRow`: the table assigns the id and
      the request date, and every column the insert leaves out is null. */
  function Inserted(n: NewRow, id: int, today: int): (r: Record)
    ensures r.id == id && r.nomorSurat == n.nomorSurat && r.status == n.status
    ensures r.catatanRevisi.None? && r.approvedBy.None? && r.tanggalTerbit.None?
    ensures r.jatuhTempo.None? && r.barcodeUrl.None?
  {
    Record(id, n.nomorSurat, n.namaPemilik, n.alamatBangunan, n.kodeRekening, n.jenisRetribusi,
           n.jumlah, n.terbilang, n.kepalaDinas, n.status, None, None, None, None, None, None, None, today)
  }

  /** The columns an `update` call names, with their new values; `None` means
      the column is not in the update and keeps its value. No page writes the
      id, the payment columns or the request date, so they are not here. */
  datatype Patch = Patch(
    nomorSurat: Option<string>,
    namaPemilik: Option<string>,
    alamatBangunan: Option<string>,
    kodeRekening: Option<string>,
    jenisRetribusi: Option<string>,
    jumlah: Option<Option<int>>,
    terbilang: Option<string>,
    kepalaDinas: Option<string>,
    status: Option<Option<bool>>,
    catatanRevisi: Option<Option<string>>,
    approvedBy: Option<Option<string>>,
    tanggalTerbit: Option<Option<int>>,
    jatuhTempo: Option<Option<int>>,
    barcodeUrl: Option<Option<string>>)

  const NoChange: Patch := Patch(None, None, None, None, None, None, None, None, None, None, None, None, None, None)

  function Set<T>(old_: T, p: Option<T>): T {
    if p.Some? then p.value else old_
  }

  /** A row after an update with `p`. */
  function Patched(r: Record, p: Patch): Record {
    r.(nomorSurat := Set(r.nomorSurat, p.nomorSurat),
       namaPemilik := Set(r.namaPemilik, p.namaPemilik),
       alamatBangunan := Set(r.alamatBangunan, p.alamatBangunan),
       kodeRekening := Set(r.kodeRekening, p.kodeRekening),
       jenisRetribusi := Set(r.jenisRetribusi, p.jenisRetribusi),
       jumlah := Set(r.jumlah, p.jumlah),
       terbilang := Set(r.terbilang, p.terbilang),
       kepalaDinas := Set(r.kepalaDinas, p.kepalaDinas),
       status := Set(r.status, p.status),
       catatanRevisi := Set(r.catatanRevisi, p.catatanRevisi),
       approvedBy := Set(r.approvedBy, p.approvedBy),
       tanggalTerbit := Set(r.tanggalTerbit, p.tanggalTerbit),
       jatuhTempo := Set(r.jatuhTempo, p.jatuhTempo),
       barcodeUrl := Set(r.barcodeUrl, p.barcodeUrl))
  }

  /** The update that names no column leaves a row as it is. */
  lemma PatchedNoChange(r: Record)
    ensures Patched(r, NoChange) == r
  {
  }

  // ---------------------------------------------------------------------
  // Whole-table views

  predicate UniqueIds(rows: seq<Record>) {
    forall i, j :: 0 <= i < j < |rows| ==> rows[i].id != rows[j].id
  }

  predicate UniqueNomor(rows: seq<Record>) {
    forall i, j :: 0 <= i < j < |rows| ==> rows[i].nomorSurat != rows[j].nomorSurat
  }

  /** `update(p).eq('id', id)`: every row with that id is patched, the others
      stay, and the order is kept. */
  function UpdateWhere(rows: seq<Record>, id: int, p: Patch): (r: seq<Record>)
    ensures |r| == |rows|
    ensures forall i :: 0 <= i < |r| ==> r[i].id == rows[i].id
    ensures forall i :: 0 <= i < |r| ==> rows[i].id != id ==> r[i] == rows[i]
    ensures forall i :: 0 <= i < |r| ==> rows[i].id == id ==> r[i] == Patched(rows[i], p)
  {
    if rows == [] then []
    else [if rows[0].id == id then Patched(rows[0], p) else rows[0]] + UpdateWhere(rows[1..], id, p)
  }

  /** `delete().eq('id', id)`: the rows with another id, in their order. */
  function DeleteWhere(rows: seq<Record>, id: int): (r: seq<Record>)
    ensures forall x :: x in r <==> x in rows && x.id != id
    ensures |r| <= |rows|
  {
    if rows == [] then []
    else (if rows[0].id == id then [] else [rows[0]]) + DeleteWhere(rows[1..], id)
  }

  /** The rows whose `nomor_surat` is `nomor`, in their order. */
  function WithNomor(rows: seq<Record>, nomor: string): (r: seq<Record>)
    ensures forall x :: x in r <==> x in rows && x.nomorSurat == nomor
  {
    if rows == [] then []
    else (if rows[0].nomorSurat == nomor then [rows[0]] else []) + WithNomor(rows[1..], nomor)
  }

  /** No row has the number: the select matches nothing. */
  lemma {:induction false} WithNomorNone(rows: seq<Record>, nomor: string)
    requires forall x :: x in rows ==> x.nomorSurat != nomor
    ensures WithNomor(rows, nomor) == []
    decreases |rows|
  {
    if rows != [] {
      assert rows[0] in rows;
      WithNomorNone(rows[1..], nomor);
    }
  }

  /** `.eq('nomor_surat', nomor).single()`: the row when exactly one matches;
      none or several is an error, which leaves the caller without data. */
  function SingleByNomor(rows: seq<Record>, nomor: string): Option<Record> {
    var m := WithNomor(rows, nomor);
    if |m| == 1 then Some(m[0]) else None
  }

  /** Deleting one row leaves every other row in place and in order:
      when the ids are distinct, deleting the id at position `k` is the same
      as cutting out position `k`. */
  lemma {:induction false} DeleteAt(rows: seq<Record>, k: nat)
    requires UniqueIds(rows) && k < |rows|
    ensures DeleteWhere(rows, rows[k].id) == rows[..k] + rows[k + 1..]
    decreases |rows|
  {
    var id := rows[k].id;
    if k == 0 {
      DeleteAbsent(rows[1..], id);
      assert rows[1..] == rows[k + 1..];
    } else {
      assert UniqueIds(rows[1..]);
      DeleteAt(rows[1..], k - 1);
      assert rows[1..][k - 1].id == id;
      assert rows[..k] == [rows[0]] + rows[1..][..k - 1];
      assert rows[k + 1..] == rows[1..][k..];
    }
  }

  /** Deleting an id that no row has changes nothing. */
  lemma {:induction false} DeleteAbsent(rows: seq<Record>, id: int)
    requires forall i :: 0 <= i < |rows| ==> rows[i].id != id
    ensures DeleteWhere(rows, id) == rows
    decreases |rows|
  {
    if rows != [] {
      DeleteAbsent(rows[1..], id);
    }
  }

  /** With distinct numbers, the single-row select finds the row with that
      number exactly when there is one. */
  lemma {:induction false} SingleByNomorUnique(rows: seq<Record>, nomor: string)
    requires UniqueNomor(rows)
    ensures SingleByNomor(rows, nomor).None? <==> forall i :: 0 <= i < |rows| ==> rows[i].nomorSurat != nomor
    ensures SingleByNomor(rows, nomor).Some? ==>
      SingleByNomor(rows, nomor).value in rows && SingleByNomor(rows, nomor).value.nomorSurat == nomor
    decreases |rows|
  {
    if rows != [] {
      assert UniqueNomor(rows[1..]);
      SingleByNomorUnique(rows[1..], nomor);
      if rows[0].nomorSurat == nomor {
        assert forall i :: 0 <= i < |rows[1..]| ==> rows[1..][i].nomorSurat != nomor by {
          forall i | 0 <= i < |rows[1..]| ensures rows[1..][i].nomorSurat != nomor {
            assert rows[1..][i] == rows[i + 1];
          }
        }
        var w := WithNomor(rows[1..], nomor);
        if w != [] {
          assert w[0] in rows[1..];
        }
      } else {
        assert forall i :: 1 <= i < |rows| ==> rows[i] == rows[1..][i - 1];
      }
    }
  }

  /** The stored rows. `nextId` is the table's id sequence. */
  class Table {
    var rows: seq<Record>
    var nextId: int

    /** Ids are positive, distinct and below the next id to be issued. */
    ghost predicate Valid()
      reads this
    {
      nextId >= 1
      && (forall i :: 0 <= i < |rows| ==> 1 <= rows[i].id < nextId)
      && UniqueIds(rows)
    }

    constructor()
      ensures Valid() && rows == [] && nextId == 1
    {
      rows := [];
      nextId := 1;
    }

    /** `insert([n])`; on failure nothing is stored. */
    method Insert(n: NewRow, today: int, fails: bool) returns (ok: bool)
      requires Valid()
      modifies this
      ensures Valid()
      ensures ok == !fails
      ensures ok ==> rows == old(rows) + [Inserted(n, old(nextId), today)] && nextId == old(nextId) + 1
      ensures !ok ==> rows == old(rows) && nextId == old(nextId)
    {
      if fails {
        return false;
      }
      rows := rows + [Inserted(n, nextId, today)];
      nextId := nextId + 1;
      ok := true;
    }

    /** `update(p).eq('id', id)`; on failure nothing changes. */
    method Update(id: int, p: Patch, fails: bool) returns (ok: bool)
      requires Valid()
      modifies this
      ensures Valid() && nextId == old(nextId)
      ensures ok == !fails
      ensures rows == if ok then UpdateWhere(old(rows), id, p) else old(rows)
    {
      if fails {
        return false;
      }
      rows := UpdateWhere(rows, id, p);
      ok := true;
    }

    /** `delete().eq('id', id)`; on failure nothing changes. */
    method Delete(id: int, fails: bool) returns (ok: bool)
      requires Valid()
      modifies this
      ensures Valid() && nextId == old(nextId)
      ensures ok == !fails
      ensures rows == if ok then DeleteWhere(old(rows), id) else old(rows)
    {
      if fails {
        return false;
      }
      DeleteKeepsDistinct(rows, id);
      rows := DeleteWhere(rows, id);
      ok := true;
    }

    /** `select().eq('nomor_surat', nomor).single()`; a failed call gives no data. */
    method SelectSingle(nomor: string, fails: bool) returns (r: Option<Record>)
      ensures r == if fails then None else SingleByNomor(rows, nomor)
    {
      r := if fails then None else SingleByNomor(rows, nomor);
    }
  }

  lemma {:induction false} DeleteKeepsDistinct(rows: seq<Record>, id: int)
    requires UniqueIds(rows)
    ensures UniqueIds(DeleteWhere(rows, id))
    decreases |rows|
  {
    if rows != [] {
      assert UniqueIds(rows[1..]);
      DeleteKeepsDistinct(rows[1..], id);
      var t := DeleteWhere(rows[1..], id);
      assert forall x :: x in t ==> x in rows[1..];
      assert forall i :: 1 <= i < |rows| ==> rows[i].id != rows[0].id;
      assert forall x :: x in rows[1..] ==> x.id != rows[0].id;
    }
  }
}
