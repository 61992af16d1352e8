/** Document numbers `SKRD-PBG/PERKIMTAN-GW/<seq>/<month in Roman numerals>/<year>`
    (lib/hooks/useAutoNomor.ts). The next number continues the sequence of
    the newest number of the current year. */
module AutoNomor {
  import opened Wrappers
  import opened JsString
  import opened SkrdStore

  const Romawi: seq<string> := ["I", "II", "III", "IV", "V", "VI", "VII", "VIII", "IX", "X", "XI", "XII"]

  const Prefix: string := "SKRD-PBG/PERKIMTAN-GW/"

  /** Shown before the first generation finishes. */
  const Loading: string := "Memuat nomor..."

  /** Shown when the store call fails. */
  const ErrorText: string := "Error generating number"

  /** `romawi[bulan - 1] || "I"`: the month's Roman numeral, and "I" for an
      index outside the table. */
  function RomanMonth(bulan: int): (r: string)
    ensures r in Romawi && r != [] && '/' !in r
    ensures 1 <= bulan <= 12 ==> r == Romawi[bulan - 1]
    ensures !(1 <= bulan <= 12) ==> r == "I"
  {
    var v := if 1 <= bulan <= 12 then Romawi[bulan - 1] else "";
    if v != "" then v else "I"
  }

  /** Different months get different numerals. */
  lemma RomanMonthInjective(a: int, b: int)
    requires 1 <= a <= 12 && 1 <= b <= 12 && a != b
    ensures RomanMonth(a) != RomanMonth(b)
  {
    assert forall i, j :: 0 <= i < j < 12 ==> Romawi[i] != Romawi[j];
  }

  /** `ilike('nomor_surat', '%/' + year)`: the number ends with "/" and the
      year. Case folding does not matter for "/" and digits. */
  predicate OfYear(nomor: string, year: int) {
    EndsWith(nomor, "/" + IntToString(year))
  }

  /** `order('id', { ascending: false }).limit(1)` over the rows of the year:
      the row of that year with the highest id. */
  function LatestOfYear(rows: seq<Record>, year: int): Option<Record> {
    if rows == [] then None
    else
      var rest := LatestOfYear(rows[1..], year);
      if !OfYear(rows[0].nomorSurat, year) then rest
      else if rest.Some? && rest.value.id > rows[0].id then rest
      else Some(rows[0])
  }

  /** The chosen row is of the year and no row of the year has a higher id;
      there is none exactly when no row is of the year. */
  lemma {:induction false} LatestIsNewest(rows: seq<Record>, year: int)
    ensures var r := LatestOfYear(rows, year);
      && (r.Some? ==> r.value in rows && OfYear(r.value.nomorSurat, year))
      && (r.Some? ==> forall x :: x in rows && OfYear(x.nomorSurat, year) ==> x.id <= r.value.id)
      && (r.None? <==> forall x :: x in rows ==> !OfYear(x.nomorSurat, year))
    decreases |rows|
  {
    if rows != [] {
      LatestIsNewest(rows[1..], year);
      assert forall x :: x in rows <==> x == rows[0] || x in rows[1..];
    }
  }

  /** The number of that row, if any. */
  function LatestNomor(rows: seq<Record>, year: int): Option<string> {
    match LatestOfYear(rows, year)
    case None => None
    case Some(r) => Some(r.nomorSurat)
  }

  /** The rows of one year, in their order. */
  function YearRows(rows: seq<Record>, year: int): (r: seq<Record>)
    ensures forall x :: x in r <==> x in rows && OfYear(x.nomorSurat, year)
  {
    if rows == [] then []
    else (if OfYear(rows[0].nomorSurat, year) then [rows[0]] else []) + YearRows(rows[1..], year)
  }

  /** Rows of other years never affect the choice: it depends only on the
      rows of the year. */
  lemma {:induction false} LatestIgnoresOtherYears(rows: seq<Record>, year: int)
    ensures LatestOfYear(rows, year) == LatestOfYear(YearRows(rows, year), year)
    decreases |rows|
  {
    if rows != [] {
      LatestIgnoresOtherYears(rows[1..], year);
      var y := YearRows(rows, year);
      if OfYear(rows[0].nomorSurat, year) {
        assert y == [rows[0]] + YearRows(rows[1..], year);
        assert y[0] == rows[0] && y[1..] == YearRows(rows[1..], year);
      } else {
        assert y == YearRows(rows[1..], year);
      }
    }
  }

  /** The sequence number after `last`: its third "/"-separated field parsed
      with `parseInt`, plus one; 1 when there is no last number, fewer than
      three fields, or no number in the field. */
  function NextSeq(last: Option<string>): (n: int)
    ensures last.None? ==> n == 1
    ensures last.Some? && |Split(last.value, '/')| >= 3 && ParseInt(Split(last.value, '/')[2]).Some? ==>
      n == ParseInt(Split(last.value, '/')[2]).value + 1
    ensures last.Some? && (|Split(last.value, '/')| < 3 || ParseInt(Split(last.value, '/')[2]).None?) ==> n == 1
  {
    match last
    case None => 1
    case Some(nomor) =>
      var parts := Split(nomor, '/');
      if |parts| >= 3 then
        match ParseInt(parts[2])
        case Some(v) => v + 1
        case None => 1
      else 1
  }

  /** A number other than 1 always comes from a parsed third field. */
  lemma NextSeqFromField(nomor: string)
    ensures var n := NextSeq(Some(nomor));
      var parts := Split(nomor, '/');
      n == 1 || (|parts| >= 3 && ParseInt(parts[2]) == Some(n - 1))
  {
  }

  /** The sequence number as three or more digits: `toString().padStart(3, '0')`. */
  function SeqField(n: int): string {
    PadStart(IntToString(n), 3, '0')
  }

  /** A non-negative sequence number is padded to at least three digits, never
      truncated, and keeps its value. */
  lemma SeqFieldDigits(k: nat)
    ensures AllDigits(SeqField(k)) && |SeqField(k)| >= 3 && |SeqField(k)| >= |NatToString(k)|
    ensures DecValue(SeqField(k)) == k
  {
    var d := NatToString(k);
    DecValueLeadingZeros(|SeqField(k)| - |d|, d);
  }

  /** The whole document number. */
  function FormatNomor(n: int, roman: string, year: int): string {
    Prefix + SeqField(n) + "/" + roman + "/" + IntToString(year)
  }

  /** A number built for a year is found by the next search for that year. */
  lemma FormatOfYear(n: int, roman: string, year: int)
    ensures OfYear(FormatNomor(n, roman, year), year)
  {
    var s := FormatNomor(n, roman, year);
    var suffix := "/" + IntToString(year);
    assert s == (Prefix + SeqField(n) + "/" + roman) + suffix;
  }

  /** Feeding a generated number with sequence `k` back as the last number
      gives `k + 1`: the fixed prefix holds exactly two fields, so the
      sequence is the third. */
  lemma NomorRoundTrip(k: nat, roman: string, year: int)
    ensures NextSeq(Some(FormatNomor(k, roman, year))) == k + 1
  {
    var f := SeqField(k);
    var tail := roman + "/" + IntToString(year);
    var rest := f + "/" + tail;
    var s := FormatNomor(k, roman, year);
    FieldsAssoc(Prefix, f, roman, IntToString(year));
    PrefixFields(rest);
    SeqFieldDigits(k);
    assert '/' !in f by {
      forall i | 0 <= i < |f| ensures f[i] != '/' { assert IsDigit(f[i]); }
    }
    assert rest == f + ['/'] + tail;
    SplitPrefix(f, '/', tail);
    var parts := Split(s, '/');
    assert parts == ["SKRD-PBG", "PERKIMTAN-GW"] + ([f] + Split(tail, '/'));
    assert parts[2] == f;
    ParseIntDigits(f);
    NextSeqOf(s, k);
  }

  lemma FieldsAssoc(p: string, f: string, r: string, y: string)
    ensures p + f + "/" + r + "/" + y == p + (f + "/" + (r + "/" + y))
  {
  }

  lemma NextSeqOf(nomor: string, v: int)
    requires |Split(nomor, '/')| >= 3 && ParseInt(Split(nomor, '/')[2]) == Some(v)
    ensures NextSeq(Some(nomor)) == v + 1
  {
  }

  /** The fixed prefix contributes exactly two fields. */
  lemma PrefixFields(rest: string)
    ensures Split(Prefix + rest, '/') == ["SKRD-PBG", "PERKIMTAN-GW"] + Split(rest, '/')
  {
    var a, b := "SKRD-PBG", "PERKIMTAN-GW";
    assert Prefix + rest == a + ['/'] + (b + ['/'] + rest);
    assert '/' !in a && '/' !in b;
    SplitPrefix(a, '/', b + ['/'] + rest);
    SplitPrefix(b, '/', rest);
  }

  /** The `useAutoNomor` hook's state. */
  class NomorGenerator {
    var nomorSurat: string
    var loadingNomor: bool

    constructor()
      ensures nomorSurat == Loading && loadingNomor
    {
      nomorSurat := Loading;
      loadingNomor := true;
    }

    /** `generateNomor`, with the clock read as `month` (0 to 11) and `year`,
        and `fails` standing for an error from the store. */
    method Generate(table: Table, month: int, year: int, fails: bool)
      modifies this
      ensures !loadingNomor
      ensures fails ==> nomorSurat == ErrorText
      ensures !fails ==> nomorSurat == FormatNomor(NextSeq(LatestNomor(table.rows, year)), RomanMonth(month + 1), year)
    {
      loadingNomor := true;
      if fails {
        nomorSurat := ErrorText;
        loadingNomor := false;
        return;
      }
      var romawiBulan := RomanMonth(month + 1);
      var latest := LatestOfYear(table.rows, year);
      var nextNumber := 1;
      if latest.Some? {
        var parts := Split(latest.value.nomorSurat, '/');
        if |parts| >= 3 {
          var lastUrutan := ParseInt(parts[2]);
          if lastUrutan.Some? {
            nextNumber := lastUrutan.value + 1;
          }
        }
      }
      nomorSurat := Prefix + SeqField(nextNumber) + "/" + romawiBulan + "/" + IntToString(year);
      loadingNomor := false;
    }
  }
}
