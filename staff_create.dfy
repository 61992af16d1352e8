/** The staff page that issues a new certificate (app/staff/create/page.tsx):
    the form, its validation, and the submit that checks the generated number
    is unused before inserting the row. */
module StaffCreate {
  import opened Wrappers
  import opened JsString
  import opened SkrdStore
  import opened AutoNomor
  import opened AmountInput

  /** The text fields of the form besides the amount. */
  datatype Fields = Fields(
    namaPemilik: string,
    alamatBangunan: string,
    kodeRekening: string,
    jenisRetribusi: string,
    kepalaDinas: string)

  const BlankFields: Fields := Fields("", "", "", "", "")

  /** `handleValidate`: the confirmation opens only when the owner, address,
      amount, department head, account code and levy type are all filled in. */
  predicate CanConfirm(f: Fields, jumlah: string) {
    f.namaPemilik != "" && f.alamatBangunan != "" && jumlah != "" && f.kepalaDinas != ""
    && f.kodeRekening != "" && f.jenisRetribusi != ""
  }

  /** The row the submit sends: the generated number, the fields, the parsed
      amount without its dots, the words as shown, and status false. */
  function NewRowOf(nomor: string, f: Fields, amount: AmountView): (n: NewRow)
    ensures n.nomorSurat == nomor && n.status == Some(false)
    ensures n.jumlah == CleanAmount(amount.jumlah) && n.terbilang == amount.terbilang
  {
    NewRow(nomor, f.namaPemilik, f.alamatBangunan, f.kodeRekening, f.jenisRetribusi,
           CleanAmount(amount.jumlah), amount.terbilang, f.kepalaDinas, Some(false))
  }

  /** `prefix + (error.message || 'Unknown error')`: the alert both staff
      forms raise when a store call fails. */
  function ErrorAlert(prefix: string, message: string): (r: string)
    ensures message != "" ==> r == prefix + message
    ensures message == "" ==> r == prefix + "Unknown error"
  {
    prefix + (if message != "" then message else "Unknown error")
  }

  const CreatePrefix: string := "Gagal membuat surat: "

  datatype Outcome =
    | NumberTaken   // the number exists: it is regenerated and nothing is stored
    | Created       // one row was inserted
    | Failed(alert: string)

  /** A validated form stores an amount that its words spell. */
  lemma NewRowWordsMatch(nomor: string, f: Fields, amount: AmountView)
    requires Consistent(amount) && CanConfirm(f, amount.jumlah)
    ensures WordsMatch(NewRowOf(nomor, f, amount).jumlah, NewRowOf(nomor, f, amount).terbilang)
  {
    CleanAmountMatchesWords(amount);
  }

  /** Inserting only after the single-row check found no row with the number
      keeps numbers distinct. */
  lemma InsertKeepsNumbersDistinct(rows: seq<Record>, n: NewRow, id: int, today: int)
    requires UniqueNomor(rows) && SingleByNomor(rows, n.nomorSurat).None?
    ensures UniqueNomor(rows + [Inserted(n, id, today)])
  {
    SingleByNomorUnique(rows, n.nomorSurat);
    var rows' := rows + [Inserted(n, id, today)];
    forall i, j | 0 <= i < j < |rows'| ensures rows'[i].nomorSurat != rows'[j].nomorSurat {
      if j == |rows| {
        assert rows'[i] == rows[i];
      } else {
        assert rows'[i] == rows[i] && rows'[j] == rows[j];
      }
    }
  }

  /** The page's state. */
  class CreatePage {
    var fields: Fields
    var amount: AmountView
    var showConfirmModal: bool

    ghost predicate Valid()
      reads this
    {
      Consistent(amount)
    }

    constructor()
      ensures Valid() && fields == BlankFields && amount == Empty && !showConfirmModal
    {
      fields := BlankFields;
      amount := Empty;
      showConfirmModal := false;
    }

    /** `handleJumlahChange` */
    method HandleJumlahChange(input: string)
      modifies this
      ensures Valid()
      ensures amount == AmountChange(input)
      ensures fields == old(fields) && showConfirmModal == old(showConfirmModal)
    {
      AmountChangeConsistent(input);
      amount := AmountChange(input);
    }

    /** `handleValidate` */
    method HandleValidate()
      modifies this
      ensures fields == old(fields) && amount == old(amount)
      ensures showConfirmModal == (old(showConfirmModal) || CanConfirm(fields, amount.jumlah))
    {
      if !CanConfirm(fields, amount.jumlah) {
        return;
      }
      showConfirmModal := true;
    }

    /** `handleExecuteSubmit`. The existence check reads the single row with
        the number shown; a failed check reads as "no row". When a row has
        the number, the number is regenerated and nothing is stored; there is
        no retry. Otherwise one row is inserted, or an insert error leaves
        the table as it was and raises the alert. */
    method ExecuteSubmit(table: Table, gen: NomorGenerator, today: int, month: int, year: int,
                         checkFails: bool, regenerateFails: bool, insertFails: bool, errorMessage: string)
      returns (outcome: Outcome)
      requires table.Valid()
      modifies this, table, gen
      ensures table.Valid()
      ensures fields == old(fields) && amount == old(amount) && !showConfirmModal
      ensures outcome.NumberTaken? <==> !checkFails && SingleByNomor(old(table.rows), old(gen.nomorSurat)).Some?
      ensures outcome.NumberTaken? ==> table.rows == old(table.rows) && !gen.loadingNomor
      ensures outcome.NumberTaken? ==>
        gen.nomorSurat == (if regenerateFails then ErrorText else FormatNomor(NextSeq(LatestNomor(table.rows, year)), RomanMonth(month + 1), year))
      ensures outcome.Created? <==> !outcome.NumberTaken? && !insertFails
      ensures outcome.Created? ==>
        table.rows == old(table.rows) + [Inserted(NewRowOf(old(gen.nomorSurat), fields, amount), old(table.nextId), today)]
      ensures outcome.Failed? ==> table.rows == old(table.rows) && outcome.alert == ErrorAlert(CreatePrefix, errorMessage)
      ensures !outcome.NumberTaken? ==> gen.nomorSurat == old(gen.nomorSurat)
    {
      var nomor := gen.nomorSurat;
      var existing := table.SelectSingle(nomor, checkFails);
      if existing.Some? {
        gen.Generate(table, month, year, regenerateFails);
        showConfirmModal := false;
        return NumberTaken;
      }
      var ok := table.Insert(NewRowOf(nomor, fields, amount), today, insertFails);
      showConfirmModal := false;
      if !ok {
        return Failed(ErrorAlert(CreatePrefix, errorMessage));
      }
      return Created;
    }
  }
}
