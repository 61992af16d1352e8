/** `konversiTerbilang`: the Indonesian spelling of an amount, built by
    magnitude bands and concatenation. Every word is preceded by one space, so
    the result starts with a space and holds doubled spaces wherever a part
    spells zero (100 is " seratus ", 100000 is " seratus  ribu "); callers
    trim only the two ends. */
module Terbilang {
  import opened JsString

  /** The words for 0 through 11; index 0 is the empty word. */
  const Huruf: seq<string> :=
    ["", "satu", "dua", "tiga", "empat", "lima", "enam", "tujuh", "delapan", "sembilan", "sepuluh", "sebelas"]

  const Ribu: nat := 1_000
  const Juta: nat := 1_000_000
  const Milyar: nat := 1_000_000_000
  const Trilyun: nat := 1_000_000_000_000
  /** From here on no band applies and the result is empty. */
  const Limit: nat := 1_000_000_000_000_000

  function Abs(n: int): nat { if n < 0 then -n else n }

  /** The spelling of `nilai`; the sign is dropped first. */
  function Words(nilai: int): (r: string)
    ensures Abs(nilai) < Limit ==> r != [] && r[0] == ' '
    ensures Abs(nilai) >= Limit ==> r == ""
    decreases Abs(nilai)
  {
    var angka := Abs(nilai);
    if angka < 12 then " " + Huruf[angka]
    else if angka < 20 then Words(angka - 10) + " belas"
    else if angka < 100 then Words(angka / 10) + " puluh" + Words(angka % 10)
    else if angka < 200 then " seratus" + Words(angka - 100)
    else if angka < 1000 then Words(angka / 100) + " ratus" + Words(angka % 100)
    else if angka < 2000 then " seribu" + Words(angka - 1000)
    else if angka < Juta then Words(angka / Ribu) + " ribu" + Words(angka % Ribu)
    else if angka < Milyar then Words(angka / Juta) + " juta" + Words(angka % Juta)
    else if angka < Trilyun then Words(angka / Milyar) + " milyar" + Words(angka % Milyar)
    else if angka < Limit then Words(angka / Trilyun) + " trilyun" + Words(angka % Trilyun)
    else ""
  }

  /** The sign is ignored. */
  lemma WordsIgnoresSign(n: int)
    ensures Words(-n) == Words(n)
  {
  }

  /** The band equations: each band is the words of its leading part, the
      band's word and the words of the rest. The hundreds and thousands bands
      with leading part 1 use the fused "seratus"/"seribu", so the multiplier
      spelled before "ratus" or "ribu" is always at least 2. */
  lemma WordsBands(n: nat)
    ensures n < 12 ==> Words(n) == " " + Huruf[n]
    ensures 12 <= n < 20 ==> Words(n) == Words(n - 10) + " belas"
    ensures 20 <= n < 100 ==> Words(n) == Words(n / 10) + " puluh" + Words(n % 10) && n / 10 >= 2
    ensures 100 <= n < 200 ==> Words(n) == " seratus" + Words(n - 100)
    ensures 200 <= n < 1000 ==> Words(n) == Words(n / 100) + " ratus" + Words(n % 100) && n / 100 >= 2
    ensures 1000 <= n < 2000 ==> Words(n) == " seribu" + Words(n - 1000)
    ensures 2000 <= n < Juta ==> Words(n) == Words(n / Ribu) + " ribu" + Words(n % Ribu) && n / Ribu >= 2
    ensures Juta <= n < Milyar ==> Words(n) == Words(n / Juta) + " juta" + Words(n % Juta)
    ensures Milyar <= n < Trilyun ==> Words(n) == Words(n / Milyar) + " milyar" + Words(n % Milyar)
    ensures Trilyun <= n < Limit ==> Words(n) == Words(n / Trilyun) + " trilyun" + Words(n % Trilyun)
  {
  }

  // ---------------------------------------------------------------------
  // A reference reading of the words back into a number

  /** The space-separated words of a phrase; doubled spaces give no word. */
  function Tokens(s: string): seq<string> {
    NonEmpty(Split(s, ' '))
  }

  function NonEmpty(ws: seq<string>): seq<string> {
    if ws == [] then [] else (if ws[0] == "" then [] else [ws[0]]) + NonEmpty(ws[1..])
  }

  /** Reading state: `total` holds what the scale words have flushed,
      `hundreds` the hundreds of the current group, `small` the part below 100. */
  datatype Reading = Reading(total: int, hundreds: int, small: int) {
    /** The number read so far, pending parts included. */
    function Sum(): int { total + hundreds + small }
  }

  function UnitValue(w: string): (v: nat)
    ensures v < 12
  {
    if w == "satu" then 1 else if w == "dua" then 2 else if w == "tiga" then 3
    else if w == "empat" then 4 else if w == "lima" then 5 else if w == "enam" then 6
    else if w == "tujuh" then 7 else if w == "delapan" then 8 else if w == "sembilan" then 9
    else if w == "sepuluh" then 10 else if w == "sebelas" then 11 else 0
  }

  function ScaleValue(w: string): nat {
    if w == "ribu" then Ribu else if w == "juta" then Juta
    else if w == "milyar" then Milyar else if w == "trilyun" then Trilyun else 0
  }

  function Step(st: Reading, w: string): Reading {
    if UnitValue(w) > 0 then st.(small := st.small + UnitValue(w))
    else if w == "belas" then st.(small := st.small + 10)
    else if w == "puluh" then st.(small := st.small * 10)
    else if w == "seratus" then st.(hundreds := st.hundreds + 100)
    else if w == "ratus" then st.(hundreds := st.hundreds + st.small * 100, small := 0)
    else if w == "seribu" then st.(total := st.total + Ribu)
    else if ScaleValue(w) > 0 then Reading(st.total + (st.hundreds + st.small) * ScaleValue(w), 0, 0)
    else st
  }

  function Run(st: Reading, ws: seq<string>): Reading
    decreases |ws|
  {
    if ws == [] then st else Run(Step(st, ws[0]), ws[1..])
  }

  /** The number an Indonesian phrase reads as. */
  function ReadWords(s: string): int {
    Run(Reading(0, 0, 0), Tokens(s)).Sum()
  }

  lemma {:induction false} NonEmptyAppend(a: seq<string>, b: seq<string>)
    ensures NonEmpty(a + b) == NonEmpty(a) + NonEmpty(b)
    decreases |a|
  {
    if a == [] {
      assert a + b == b;
    } else {
      assert (a + b)[1..] == a[1..] + b;
      NonEmptyAppend(a[1..], b);
    }
  }

  /** Words never run together across a concatenation whose right part starts
      with a space. */
  lemma TokensConcat(a: string, b: string)
    requires b != [] && b[0] == ' '
    ensures Tokens(a + b) == Tokens(a) + Tokens(b)
  {
    var b' := b[1..];
    assert a + b == a + [' '] + b';
    assert b == [' '] + b';
    SplitConcat(a, ' ', b');
    SplitCons(' ', b', ' ');
    var A, B := Split(a, ' '), Split(b', ' ');
    assert Split(a + b, ' ') == A + B;
    assert Split(b, ' ') == [""] + B;
    NonEmptyAppend(A, B);
    NonEmptyAppend([""], B);
    assert NonEmpty([""]) == [];
    assert Tokens(b) == NonEmpty(B);
  }

  lemma TokensOfWord(w: string)
    requires w != [] && ' ' !in w
    ensures Tokens(" " + w) == [w]
  {
    SplitNoSeparator(w, ' ');
    var s := " " + w;
    assert s[0] == ' ' && s[1..] == w;
    assert Split(s, ' ') == [""] + [w];
    assert NonEmpty([""] + [w]) == NonEmpty([w]);
    assert NonEmpty([w]) == [w] + NonEmpty([]);
  }

  /** The words of `n` as a list, one entry per word: what `Words` spells,
      without the spaces. */
  function WordList(n: nat): seq<string>
    decreases n
  {
    if n < 12 then (if n == 0 then [] else [Huruf[n]])
    else if n < 20 then WordList(n - 10) + ["belas"]
    else if n < 100 then WordList(n / 10) + ["puluh"] + WordList(n % 10)
    else if n < 200 then ["seratus"] + WordList(n - 100)
    else if n < 1000 then WordList(n / 100) + ["ratus"] + WordList(n % 100)
    else if n < 2000 then ["seribu"] + WordList(n - 1000)
    else if n < Juta then WordList(n / Ribu) + ["ribu"] + WordList(n % Ribu)
    else if n < Milyar then WordList(n / Juta) + ["juta"] + WordList(n % Juta)
    else if n < Trilyun then WordList(n / Milyar) + ["milyar"] + WordList(n % Milyar)
    else if n < Limit then WordList(n / Trilyun) + ["trilyun"] + WordList(n % Trilyun)
    else []
  }

  // ---------------------------------------------------------------------
  // The phrase splits into exactly the listed words

  /** `x + " " + w + y` splits into the words of `x`, `w`, and the words of `y`. */
  lemma TokensBand(x: string, w: string, y: string, X: seq<string>, Y: seq<string>)
    requires y != [] && y[0] == ' ' && w != [] && ' ' !in w
    requires Tokens(x) == X && Tokens(y) == Y
    ensures Tokens(x + (" " + w) + y) == X + [w] + Y
  {
    TokensConcat(x + (" " + w), y);
    TokensConcat(x, " " + w);
    TokensOfWord(w);
  }

  /** `" " + w + y` splits into `w` and the words of `y`. */
  lemma TokensLead(w: string, y: string, Y: seq<string>)
    requires y != [] && y[0] == ' ' && w != [] && ' ' !in w
    requires Tokens(y) == Y
    ensures Tokens((" " + w) + y) == [w] + Y
  {
    TokensConcat(" " + w, y);
    TokensOfWord(w);
  }

  /** `x + " " + w` splits into the words of `x`, then `w`. */
  lemma TokensTail(x: string, w: string, X: seq<string>)
    requires w != [] && ' ' !in w
    requires Tokens(x) == X
    ensures Tokens(x + (" " + w)) == X + [w]
  {
    TokensConcat(x, " " + w);
    TokensOfWord(w);
  }

  lemma TokensUnits(n: nat)
    requires n < 12
    ensures Tokens(Words(n)) == WordList(n)
  {
    if n == 0 {
      assert Words(n) == " ";
      assert Split(" ", ' ') == [""] + Split("", ' ');
    } else {
      assert Words(n) == " " + Huruf[n];
      TokensOfWord(Huruf[n]);
    }
  }

  /** The phrase `Words(n)` splits into `WordList(n)`. */
  lemma {:induction false} TokensWords(n: nat)
    requires n < Limit
    ensures Tokens(Words(n)) == WordList(n)
    decreases n, 2
  {
    if n < 12 {
      TokensUnits(n);
    } else if n < 20 {
      TokensTeens(n);
    } else if n < 100 {
      TokensTens(n);
    } else if n < 200 {
      TokensLeadOf(n, 100, "seratus");
    } else if n < 1000 {
      TokensHundreds(n);
    } else if n < 2000 {
      TokensLeadOf(n, Ribu, "seribu");
    } else if n < Juta {
      TokensRibu(n);
    } else if n < Milyar {
      TokensJuta(n);
    } else if n < Trilyun {
      TokensMilyar(n);
    } else {
      TokensTrilyun(n);
    }
  }

  lemma {:induction false} TokensTens(n: nat)
    requires 20 <= n < 100
    ensures Tokens(Words(n)) == WordList(n)
    decreases n, 1
  {
    var q, r := n / 10, n % 10;
    assert Words(n) == Words(q) + (" " + "puluh") + Words(r);
    TokensBandOf(n, q, r, "puluh");
  }

  lemma {:induction false} TokensHundreds(n: nat)
    requires 200 <= n < 1000
    ensures Tokens(Words(n)) == WordList(n)
    decreases n, 1
  {
    var q, r := n / 100, n % 100;
    assert Words(n) == Words(q) + (" " + "ratus") + Words(r);
    TokensBandOf(n, q, r, "ratus");
  }

  lemma {:induction false} TokensRibu(n: nat)
    requires 2000 <= n < Juta
    ensures Tokens(Words(n)) == WordList(n)
    decreases n, 1
  {
    var q, r := n / Ribu, n % Ribu;
    assert Words(n) == Words(q) + (" " + "ribu") + Words(r);
    TokensBandOf(n, q, r, "ribu");
  }

  lemma {:induction false} TokensJuta(n: nat)
    requires Juta <= n < Milyar
    ensures Tokens(Words(n)) == WordList(n)
    decreases n, 1
  {
    var q, r := n / Juta, n % Juta;
    assert Words(n) == Words(q) + (" " + "juta") + Words(r);
    TokensBandOf(n, q, r, "juta");
  }

  lemma {:induction false} TokensMilyar(n: nat)
    requires Milyar <= n < Trilyun
    ensures Tokens(Words(n)) == WordList(n)
    decreases n, 1
  {
    var q, r := n / Milyar, n % Milyar;
    assert Words(n) == Words(q) + (" " + "milyar") + Words(r);
    TokensBandOf(n, q, r, "milyar");
  }

  lemma {:induction false} TokensTrilyun(n: nat)
    requires Trilyun <= n < Limit
    ensures Tokens(Words(n)) == WordList(n)
    decreases n, 1
  {
    var q, r := n / Trilyun, n % Trilyun;
    assert Words(n) == Words(q) + (" " + "trilyun") + Words(r);
    TokensBandOf(n, q, r, "trilyun");
  }

  lemma {:induction false} TokensTeens(n: nat)
    requires 12 <= n < 20
    ensures Tokens(Words(n)) == WordList(n)
    decreases n, 1
  {
    TokensWords(n - 10);
    assert Words(n) == Words(n - 10) + (" " + "belas");
    TokensTail(Words(n - 10), "belas", WordList(n - 10));
  }

  /** The fused words: `" " + w` for one `unit`, then the rest. */
  lemma {:induction false} TokensLeadOf(n: nat, unit: nat, w: string)
    requires (unit == 100 && w == "seratus") || (unit == Ribu && w == "seribu")
    requires unit <= n < 2 * unit
    ensures Tokens(Words(n)) == WordList(n)
    decreases n, 1
  {
    TokensWords(n - unit);
    assert Words(n) == (" " + w) + Words(n - unit);
    TokensLead(w, Words(n - unit), WordList(n - unit));
  }

  /** A band: the multiplier's words, the band word `w`, the rest's words. */
  lemma {:induction false} TokensBandOf(n: nat, q: nat, r: nat, w: string)
    requires n < Limit && q < n && r < n && w != [] && ' ' !in w
    requires Words(n) == Words(q) + (" " + w) + Words(r)
    requires WordList(n) == WordList(q) + [w] + WordList(r)
    ensures Tokens(Words(n)) == WordList(n)
    decreases n, 0
  {
    TokensWords(q);
    TokensWords(r);
    TokensBand(Words(q), w, Words(r), WordList(q), WordList(r));
  }

  // ---------------------------------------------------------------------
  // Reading the listed words

  lemma {:induction false} RunAppend(st: Reading, a: seq<string>, b: seq<string>)
    ensures Run(st, a + b) == Run(Run(st, a), b)
    decreases |a|
  {
    if a == [] {
      assert a + b == b;
    } else {
      assert (a + b)[1..] == a[1..] + b;
      RunAppend(Step(st, a[0]), a[1..], b);
    }
  }

  /** Reading `a` to `st1`, the word `w` to `st2` and then `b` to `st3` reads
      `a + [w] + b` to `st3`. */
  lemma RunBand(st: Reading, a: seq<string>, w: string, b: seq<string>, st1: Reading, st2: Reading, st3: Reading)
    requires Run(st, a) == st1 && Step(st1, w) == st2 && Run(st2, b) == st3
    ensures Run(st, a + [w] + b) == st3
  {
    RunAppend(st, a + [w], b);
    RunAppend(st, a, [w]);
    assert [w][1..] == [];
  }

  /** Reading the word `w` to `st2`, then `b` to `st3`. */
  lemma RunLead(st: Reading, w: string, b: seq<string>, st2: Reading, st3: Reading)
    requires Step(st, w) == st2 && Run(st2, b) == st3
    ensures Run(st, [w] + b) == st3
  {
    assert ([w] + b)[0] == w && ([w] + b)[1..] == b;
  }

  /** Reading `a` to `st1`, then the word `w` to `st2`. */
  lemma RunTail(st: Reading, a: seq<string>, w: string, st1: Reading, st2: Reading)
    requires Run(st, a) == st1 && Step(st1, w) == st2
    ensures Run(st, a + [w]) == st2
  {
    RunAppend(st, a, [w]);
    assert [w][1..] == [];
  }

  // How each fixed word of the vocabulary steps the reading.

  lemma UnitValueHuruf(n: nat)
    requires 1 <= n < 12
    ensures UnitValue(Huruf[n]) == n
  {
  }

  lemma StepBelas(st: Reading)
    ensures Step(st, "belas") == st.(small := st.small + 10)
  {
    assert UnitValue("belas") == 0;
  }

  lemma StepPuluh(st: Reading)
    ensures Step(st, "puluh") == st.(small := st.small * 10)
  {
    assert UnitValue("puluh") == 0;
  }

  lemma StepSeratus(st: Reading)
    ensures Step(st, "seratus") == st.(hundreds := st.hundreds + 100)
  {
    assert UnitValue("seratus") == 0;
  }

  lemma StepRatus(st: Reading)
    ensures Step(st, "ratus") == st.(hundreds := st.hundreds + st.small * 100, small := 0)
  {
    assert UnitValue("ratus") == 0;
  }

  lemma StepSeribu(st: Reading)
    ensures Step(st, "seribu") == st.(total := st.total + Ribu)
  {
    assert UnitValue("seribu") == 0;
  }

  /** `w` is a scale word worth `scale`: it flushes the pending group into the
      total. */
  ghost predicate Flushes(w: string, scale: nat) {
    forall st: Reading {:trigger Step(st, w)} ::
      Step(st, w) == Reading(st.total + (st.hundreds + st.small) * scale, 0, 0)
  }

  lemma FlushesRibu()
    ensures Flushes("ribu", Ribu)
  {
    assert UnitValue("ribu") == 0 && ScaleValue("ribu") == Ribu;
  }

  lemma FlushesJuta()
    ensures Flushes("juta", Juta)
  {
    assert UnitValue("juta") == 0 && ScaleValue("juta") == Juta;
  }

  lemma FlushesMilyar()
    ensures Flushes("milyar", Milyar)
  {
    assert UnitValue("milyar") == 0 && ScaleValue("milyar") == Milyar;
  }

  lemma FlushesTrilyun()
    ensures Flushes("trilyun", Trilyun)
  {
    assert UnitValue("trilyun") == 0 && ScaleValue("trilyun") == Trilyun;
  }

  /** 0 through 11: one unit word (none for 0) added to the small part. */
  lemma ReadUnits(st: Reading, n: nat)
    requires n < 12
    ensures Run(st, WordList(n)) == st.(small := st.small + n)
  {
    if n > 0 {
      UnitValueHuruf(n);
      assert [Huruf[n]][1..] == [];
    }
  }

  /** Below 100 the words add exactly `n` to an empty small part. */
  lemma ReadBelowHundred(st: Reading, n: nat)
    requires n < 100 && st.small == 0
    ensures Run(st, WordList(n)) == st.(small := n)
  {
    if n < 12 {
      ReadUnits(st, n);
    } else if n < 20 {
      ReadTeens(st, n);
    } else {
      ReadTens(st, n);
    }
  }

  /** 12 through 19: the units, then "belas". */
  lemma ReadTeens(st: Reading, n: nat)
    requires 12 <= n < 20 && st.small == 0
    ensures Run(st, WordList(n)) == st.(small := n)
  {
    var st1 := st.(small := n - 10);
    ReadUnits(st, n - 10);
    StepBelas(st1);
    RunTail(st, WordList(n - 10), "belas", st1, st.(small := n));
  }

  /** 20 through 99: the tens digit, "puluh", then the units. */
  lemma ReadTens(st: Reading, n: nat)
    requires 20 <= n < 100 && st.small == 0
    ensures Run(st, WordList(n)) == st.(small := n)
  {
    var q, r := n / 10, n % 10;
    var st1, st2 := st.(small := q), st.(small := q * 10);
    ReadUnits(st, q);
    StepPuluh(st1);
    ReadUnits(st2, r);
    RunBand(st, WordList(q), "puluh", WordList(r), st1, st2, st.(small := n));
  }

  /** Below 1000 the words add the hundreds to `hundreds` and leave the rest
      in `small`. */
  lemma ReadBelowThousand(st: Reading, n: nat)
    requires n < 1000 && st.small == 0
    ensures Run(st, WordList(n)) == st.(hundreds := st.hundreds + n / 100 * 100, small := n % 100)
  {
    if n < 100 {
      ReadBelowHundred(st, n);
      assert n / 100 * 100 == 0 && n % 100 == n;
    } else if n < 200 {
      ReadOneHundreds(st, n);
    } else {
      ReadHundreds(st, n);
    }
  }

  /** 100 through 199: "seratus", then the rest. */
  lemma ReadOneHundreds(st: Reading, n: nat)
    requires 100 <= n < 200 && st.small == 0
    ensures Run(st, WordList(n)) == st.(hundreds := st.hundreds + n / 100 * 100, small := n % 100)
  {
    var st2 := st.(hundreds := st.hundreds + 100);
    StepSeratus(st);
    ReadBelowHundred(st2, n - 100);
    RunLead(st, "seratus", WordList(n - 100), st2, st2.(small := n - 100));
    assert n / 100 * 100 == 100 && n % 100 == n - 100;
  }

  /** 200 through 999: the hundreds digit, "ratus", then the rest. */
  lemma ReadHundreds(st: Reading, n: nat)
    requires 200 <= n < 1000 && st.small == 0
    ensures Run(st, WordList(n)) == st.(hundreds := st.hundreds + n / 100 * 100, small := n % 100)
  {
    var q, r := n / 100, n % 100;
    var st1, st2 := st.(small := q), st.(hundreds := st.hundreds + q * 100, small := 0);
    ReadBelowHundred(st, q);
    StepRatus(st1);
    ReadBelowHundred(st2, r);
    RunBand(st, WordList(q), "ratus", WordList(r), st1, st2, st2.(small := r));
  }

  /** The leading part `q` of a scale band, then the scale word, flush
      `q * scale` into the total. */
  lemma ReadScale(t: int, q: nat, scale: nat, w: string)
    requires q < 1000 && Flushes(w, scale)
    ensures Step(Run(Reading(t, 0, 0), WordList(q)), w) == Reading(t + q * scale, 0, 0)
  {
    ReadBelowThousand(Reading(t, 0, 0), q);
    var st := Reading(t, q / 100 * 100, q % 100);
    assert st.hundreds + st.small == q;
    assert Step(st, w) == Reading(t + q * scale, 0, 0);
  }

  /** Below 10^15, reading the words on top of a flushed total `t` reads
      `t + n`. */
  lemma {:induction false} ReadGroups(t: int, n: nat)
    requires n < Limit
    ensures Run(Reading(t, 0, 0), WordList(n)).Sum() == t + n
    decreases n, 1
  {
    if n < 1000 {
      ReadBelowThousand(Reading(t, 0, 0), n);
    } else if n < 2000 {
      ReadSeribu(t, n);
    } else if n < Juta {
      FlushesRibu();
      ReadBand(t, n, n / Ribu, n % Ribu, Ribu, "ribu");
    } else if n < Milyar {
      FlushesJuta();
      ReadBand(t, n, n / Juta, n % Juta, Juta, "juta");
    } else if n < Trilyun {
      FlushesMilyar();
      ReadBand(t, n, n / Milyar, n % Milyar, Milyar, "milyar");
    } else {
      FlushesTrilyun();
      ReadBand(t, n, n / Trilyun, n % Trilyun, Trilyun, "trilyun");
    }
  }

  /** 1000 through 1999: "seribu" adds 1000 to the total. */
  lemma ReadSeribu(t: int, n: nat)
    requires 1000 <= n < 2000
    ensures Run(Reading(t, 0, 0), WordList(n)).Sum() == t + n
  {
    var st2 := Reading(t + Ribu, 0, 0);
    var m := n - 1000;
    StepSeribu(Reading(t, 0, 0));
    ReadBelowThousand(st2, m);
    RunLead(Reading(t, 0, 0), "seribu", WordList(m), st2, Reading(t + Ribu, m / 100 * 100, m % 100));
    assert m / 100 * 100 + m % 100 == m;
  }

  /** One scale band: the leading part `q`, the scale word, then the rest `r`
      read recursively. */
  lemma {:induction false} ReadBand(t: int, n: nat, q: nat, r: nat, scale: nat, w: string)
    requires n == q * scale + r && r < n < Limit && q < 1000
    requires Flushes(w, scale)
    requires WordList(n) == WordList(q) + [w] + WordList(r)
    ensures Run(Reading(t, 0, 0), WordList(n)).Sum() == t + n
    decreases n, 0
  {
    var st := Reading(t, 0, 0);
    var st2 := Reading(t + q * scale, 0, 0);
    ReadScale(t, q, scale, w);
    ReadGroups(t + q * scale, r);
    RunBand(st, WordList(q), w, WordList(r), Run(st, WordList(q)), st2, Run(st2, WordList(r)));
    assert Run(st, WordList(n)) == Run(st2, WordList(r));
  }

  /** Round trip: reading the words back gives the amount, for every amount
      below 10^15 (and its negation). */
  lemma ReadWordsRoundTrip(n: int)
    requires Abs(n) < Limit
    ensures ReadWords(Words(n)) == Abs(n)
  {
    var m := Abs(n);
    assert Words(n) == Words(m);
    TokensWords(m);
    ReadGroups(0, m);
  }

  /** Hence distinct amounts in range are spelled differently. */
  lemma WordsInjective(a: nat, b: nat)
    requires a < Limit && b < Limit && Words(a) == Words(b)
    ensures a == b
  {
    ReadWordsRoundTrip(a);
    ReadWordsRoundTrip(b);
  }

  /** Spot values, spaces as the concatenation leaves them. */
  lemma SpotValues()
    ensures Words(0) == " "
    ensures Words(12) == " dua belas"
    ensures Words(100) == " seratus "
    ensures Words(1000) == " seribu "
  {
  }

  /** A zero part leaves a doubled space behind inside the words. */
  lemma SpotValuesScaled()
    ensures Words(100_000) == " seratus  ribu "
    ensures Words(3_000_000) == " tiga juta "
  {
    assert Words(100_000) == Words(100) + " ribu" + Words(0);
    assert Words(3_000_000) == Words(3) + " juta" + Words(0);
  }
}
