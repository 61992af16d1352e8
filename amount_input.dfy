/** The amount field of the staff forms (app/staff/create/page.tsx and
    app/staff/revisi/page.tsx hold the same `handleJumlahChange`): what the
    user types is reduced to digits, shown grouped by thousands with dots, and
    spelled out in words; on submit the dots are removed again and the digits
    parsed. */
module AmountInput {
  import opened Wrappers
  import opened JsString
  import Terbilang

  /** The two pieces of form state the amount field drives: the displayed
      amount (`jumlah`) and its words (`terbilang`). */
  datatype AmountView = AmountView(jumlah: string, terbilang: string)

  /** The initial state, and the state after clearing the field. */
  const Empty: AmountView := AmountView("", "-")

  /** `konversiTerbilang(n).trim() + " rupiah"`. */
  function AmountWords(n: int): string {
    Trim(Terbilang.Words(n)) + " rupiah"
  }

  /** `handleJumlahChange`: keep the digits; nothing left clears the field,
      otherwise show them grouped and spell out their value. */
  function AmountChange(input: string): AmountView {
    var raw := KeepDigits(input);
    if raw == "" then Empty
    else
      ParseIntDigits(raw);
      AmountView(GroupThousands(raw), AmountWords(ParseInt(raw).value))
  }

  /** `parseInt(jumlah.replace(/\./g, ''))` on submit. */
  function CleanAmount(jumlah: string): Option<int> {
    ParseInt(StripDots(jumlah))
  }

  /** The amount and words agree: either the field is clear, or the shown
      amount is a dot-grouped digit string and the words spell its value. */
  predicate Consistent(v: AmountView) {
    var d := StripDots(v.jumlah);
    if v.jumlah == "" then v.terbilang == "-"
    else AllDigits(d) && d != [] && v.jumlah == GroupThousands(d) && v.terbilang == AmountWords(DecValue(d))
  }

  /** A stored amount and stored words agree: the amount is a number and the
      words spell it. */
  predicate WordsMatch(jumlah: Option<int>, terbilang: string) {
    jumlah.Some? && terbilang == AmountWords(jumlah.value)
  }

  /** Every input leaves the field consistent; the shown amount without its
      dots is exactly the digits of the input, and it is clear exactly when
      the input has no digit. */
  lemma AmountChangeConsistent(input: string)
    ensures Consistent(AmountChange(input))
    ensures StripDots(AmountChange(input).jumlah) == KeepDigits(input)
    ensures AmountChange(input) == Empty <==> KeepDigits(input) == ""
  {
    var raw := KeepDigits(input);
    if raw != "" {
      StripGroupThousands(raw);
      ParseIntDigits(raw);
      assert GroupThousands(raw) != [];
    }
  }

  /** What a consistent, non-empty field submits: the parsed amount is the value
      the words spell. So the stored `jumlah` and `terbilang` agree. */
  lemma CleanAmountMatchesWords(v: AmountView)
    requires Consistent(v) && v.jumlah != ""
    ensures WordsMatch(CleanAmount(v.jumlah), v.terbilang)
    ensures CleanAmount(v.jumlah).value >= 0
  {
    ParseIntDigits(StripDots(v.jumlah));
  }

  /** `jumlah.toString()` grouped with the same regular expression, as the
      revision page shows a stored amount. The expression never inserts a dot
      after a leading minus sign, so a negative amount is its sign followed
      by the grouped digits. */
  function LoadedAmount(n: int): string {
    if n < 0 then "-" + GroupThousands(NatToString(-n)) else GroupThousands(NatToString(n))
  }

  /** Loading a stored non-negative amount with its matching words gives a
      consistent field, so resubmitting it unchanged stores the same amount. */
  lemma LoadedConsistent(n: nat, terbilang: string)
    requires terbilang == AmountWords(n)
    ensures Consistent(AmountView(LoadedAmount(n), terbilang))
    ensures CleanAmount(LoadedAmount(n)) == Some(n)
  {
    var d := NatToString(n);
    StripGroupThousands(d);
    assert GroupThousands(d) != [];
    ParseIntDigits(d);
  }

  /** Zero is spelled as nothing: the form shows only the currency. */
  lemma AmountWordsZero()
    ensures AmountWords(0) == " rupiah"
  {
    Terbilang.SpotValues();
    assert TrimStart(" ") == "";
  }

  /** A spelling with one space in front, and possibly one behind, is shown
      without them. */
  lemma AmountWordsOf(n: int, w: string, trailing: bool)
    requires w != [] && !IsJsSpace(w[0]) && !IsJsSpace(w[|w| - 1])
    requires Terbilang.Words(n) == if trailing then " " + w + " " else " " + w
    ensures AmountWords(n) == w + " rupiah"
  {
    TrimPadded(w);
  }
}
