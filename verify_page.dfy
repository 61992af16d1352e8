/** The public verification page (app/verify/page.tsx) that the QR code on
    a printed certificate opens: it reads the number, or failing that the id,
    from its address and shows the matching row. */
module VerifyPage {
  import opened Wrappers
  import opened JsString
  import opened SkrdStore
  import opened UriComponent
  import opened Lifecycle
  import SkrdListing

  /** How the row is looked up. */
  datatype Key = ByNomor(nomor: string) | ById(id: string) | NoKey

  /** A non-empty `nomor_surat` parameter wins; otherwise a non-empty `id`;
      otherwise nothing is looked up. */
  function KeyOf(href: string): (k: Key)
    ensures k.ByNomor? ==> SearchParam(href, NomorParam) == Some(k.nomor) && k.nomor != ""
    ensures k.ById? ==>
      SearchParam(href, "id") == Some(k.id) && k.id != ""
      && (SearchParam(href, NomorParam).None? || SearchParam(href, NomorParam) == Some(""))
  {
    var nomor := SearchParam(href, NomorParam);
    var id := SearchParam(href, "id");
    if nomor.Some? && nomor.value != "" then ByNomor(nomor.value)
    else if id.Some? && id.value != "" then ById(id.value)
    else NoKey
  }

  /** The rows whose id is written `id`. */
  function WithId(rows: seq<Record>, id: string): (r: seq<Record>)
    ensures forall x :: x in r <==> x in rows && IntToString(x.id) == id
  {
    if rows == [] then []
    else (if IntToString(rows[0].id) == id then [rows[0]] else []) + WithId(rows[1..], id)
  }

  /** What the page shows once loading ends. */
  datatype View =
    | NotFound
    | Found(record: Record, isLunas: bool, qrValue: string)

  /** The page for address `href`; `fails` stands for an error from the
      store. Any error, no match or several matches leave no data, which
      shows "not found". The QR code encodes the stored link, or the page's
      own address when there is none. */
  function Show(href: string, rows: seq<Record>, fails: bool): (v: View)
    ensures v.Found? ==> !fails && v.record in rows
    ensures v.Found? ==> v.isLunas == (v.record.statusPembayaran == Some("LUNAS"))
    ensures v.Found? ==> v.qrValue == if v.record.barcodeUrl.Some? && v.record.barcodeUrl.value != ""
                                      then v.record.barcodeUrl.value else href
    ensures KeyOf(href).NoKey? ==> v == NotFound
  {
    match Lookup(href, rows, fails)
    case None => NotFound
    case Some(r) =>
      Found(r, r.statusPembayaran == Some("LUNAS"),
            if r.barcodeUrl.Some? && r.barcodeUrl.value != "" then r.barcodeUrl.value else href)
  }

  /** The row the single-row select returns, if any. */
  function Lookup(href: string, rows: seq<Record>, fails: bool): (data: Option<Record>)
    ensures data.Some? ==> !fails && data.value in rows
    ensures KeyOf(href).NoKey? ==> data.None?
  {
    if fails then None
    else match KeyOf(href)
      case ByNomor(n) =>
        var m := WithNomor(rows, n);
        if |m| == 1 then assert m[0] in m; Some(m[0]) else None
      case ById(i) =>
        var m := WithId(rows, i);
        if |m| == 1 then assert m[0] in m; Some(m[0]) else None
      case NoKey => None
  }

  /** Two rows with the same number are the same row when numbers are distinct. */
  lemma SameNomorSameRow(rows: seq<Record>, x: Record, y: Record)
    requires UniqueNomor(rows) && x in rows && y in rows && x.nomorSurat == y.nomorSurat
    ensures x == y
  {
    var i :| 0 <= i < |rows| && rows[i] == x;
    var j :| 0 <= j < |rows| && rows[j] == y;
    assert i == j;
  }

  /** Scanning the QR code of an issued certificate shows that certificate,
      and the QR code on the page is the same link. */
  lemma IssuedLinkShowsRecord(origin: string, rows: seq<Record>, r: Record)
    requires '?' !in origin && '#' !in origin
    requires UniqueNomor(rows) && r in rows && r.nomorSurat != ""
    requires r.barcodeUrl == Some(VerifyLink(origin, r.nomorSurat))
    ensures Show(VerifyLink(origin, r.nomorSurat), rows, false)
            == Found(r, r.statusPembayaran == Some("LUNAS"), VerifyLink(origin, r.nomorSurat))
  {
    var href := VerifyLink(origin, r.nomorSurat);
    VerifyLinkResolves(origin, r.nomorSurat);
    assert KeyOf(href) == ByNomor(r.nomorSurat);
    SingleByNomorUnique(rows, r.nomorSurat);
    var i :| 0 <= i < |rows| && rows[i] == r;
    var found := SingleByNomor(rows, r.nomorSurat).value;
    SameNomorSameRow(rows, found, r);
    assert href != "" by { assert |href| >= |origin + "/verify"|; }
  }

  /** A number no row has is reported as not found. */
  lemma UnknownNomorNotFound(href: string, rows: seq<Record>, fails: bool)
    requires KeyOf(href).ByNomor? && forall x :: x in rows ==> x.nomorSurat != KeyOf(href).nomor
    ensures Show(href, rows, fails) == NotFound
  {
    WithNomorNone(rows, KeyOf(href).nomor);
  }

  /** The page says "paid" exactly when the dashboards label the same row
      "LUNAS". */
  lemma LunasAgreesWithDashboard(href: string, rows: seq<Record>, fails: bool)
    requires Show(href, rows, fails).Found?
    ensures Show(href, rows, fails).isLunas <==> SkrdListing.PaymentLabel(Show(href, rows, fails).record) == "LUNAS"
  {
  }
}
