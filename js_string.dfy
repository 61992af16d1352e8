/** The JavaScript string built-ins the application's handlers rely on, stated
    for the inputs they receive: the digit-filtering and dot-grouping regular
    expressions, `split`, `parseInt`, `Number.prototype.toString`, `padStart`,
    `trim`, `toLowerCase` and `includes`. */
module JsString {
  import opened Wrappers

  predicate IsDigit(c: char) { '0' <= c <= '9' }

  predicate AllDigits(s: string) {
    forall i :: 0 <= i < |s| ==> IsDigit(s[i])
  }

  function DigitValue(c: char): (v: nat)
    requires IsDigit(c)
    ensures v < 10
  {
    c as int - '0' as int
  }

  function DigitChar(v: nat): (c: char)
    requires v < 10
    ensures IsDigit(c) && DigitValue(c) == v
  {
    ('0' as int + v) as char
  }

  // ---------------------------------------------------------------------
  // Character filters: `s.replace(/[^0-9]/g, '')` and `s.replace(/[^0-9 ]/g, '')`

  /** `s.replace(/[^0-9]/g, '')`: the digits of `s`, in order. */
  function KeepDigits(s: string): (r: string)
    ensures AllDigits(r)
    ensures |r| <= |s|
    ensures AllDigits(s) ==> r == s
  {
    if s == [] then []
    else (if IsDigit(s[0]) then [s[0]] else []) + KeepDigits(s[1..])
  }

  /** The filter works character by character: the result for a
      concatenation is the concatenation of the results. */
  lemma {:induction false} KeepDigitsConcat(a: string, b: string)
    ensures KeepDigits(a + b) == KeepDigits(a) + KeepDigits(b)
    decreases |a|
  {
    if a != [] {
      assert (a + b)[0] == a[0];
      assert (a + b)[1..] == a[1..] + b;
      KeepDigitsConcat(a[1..], b);
    } else {
      assert a + b == b;
    }
  }

  /** One character survives exactly when it is a digit. Together with
      `KeepDigitsConcat` this says the result is the input's digits, in order. */
  lemma KeepDigitsOne(c: char)
    ensures KeepDigits([c]) == if IsDigit(c) then [c] else []
  {
  }

  predicate IsDigitOrSpace(c: char) { IsDigit(c) || c == ' ' }

  /** `s.replace(/[^0-9 ]/g, '')`: the digits and plain spaces of `s`, in order. */
  function KeepDigitsAndSpaces(s: string): (r: string)
    ensures forall i :: 0 <= i < |r| ==> IsDigitOrSpace(r[i])
    ensures |r| <= |s|
    ensures (forall i :: 0 <= i < |s| ==> IsDigitOrSpace(s[i])) ==> r == s
  {
    if s == [] then []
    else (if IsDigitOrSpace(s[0]) then [s[0]] else []) + KeepDigitsAndSpaces(s[1..])
  }

  /** The result for a concatenation is the concatenation of the results. */
  lemma {:induction false} KeepDigitsAndSpacesConcat(a: string, b: string)
    ensures KeepDigitsAndSpaces(a + b) == KeepDigitsAndSpaces(a) + KeepDigitsAndSpaces(b)
    decreases |a|
  {
    if a != [] {
      assert (a + b)[0] == a[0];
      assert (a + b)[1..] == a[1..] + b;
      KeepDigitsAndSpacesConcat(a[1..], b);
    } else {
      assert a + b == b;
    }
  }

  /** One character survives exactly when it is a digit or a space. */
  lemma KeepDigitsAndSpacesOne(c: char)
    ensures KeepDigitsAndSpaces([c]) == if IsDigitOrSpace(c) then [c] else []
  {
  }

  // ---------------------------------------------------------------------
  // Thousands grouping: `digits.replace(/\B(?=(\d{3})+(?!\d))/g, ".")`

  /** On a string of digits the regular expression matches every inner position
      (a non-boundary between two digits) that is followed by a positive multiple
      of three digits up to the end, and inserts a '.' there. */
  function GroupThousands(d: string): (r: string)
    requires AllDigits(d)
    ensures |r| == |d| + (if d == [] then 0 else (|d| - 1) / 3)
    decreases |d|
  {
    if |d| <= 3 then d
    else GroupThousands(d[..|d| - 3]) + "." + d[|d| - 3..]
  }

  /** Only digits and dots, with a dot exactly at every inner position that is
      followed by a multiple of three digits. */
  predicate DotsEveryFour(r: string) {
    forall i :: 0 <= i < |r| ==>
      (IsDigit(r[i]) || r[i] == '.') && (r[i] == '.' <==> 0 < i && (|r| - i) % 4 == 0)
  }

  /** The grouped display has the dots where the regular expression puts them. */
  lemma {:induction false} GroupThousandsDots(d: string)
    requires AllDigits(d)
    ensures DotsEveryFour(GroupThousands(d))
    decreases |d|
  {
    if |d| > 3 {
      var head, tail := d[..|d| - 3], d[|d| - 3..];
      assert AllDigits(head) && AllDigits(tail);
      GroupThousandsDots(head);
      DotsEveryFourJoin(GroupThousands(head), tail);
    } else {
      assert DotsEveryFour(d);
    }
  }

  /** One more group of three digits behind a dot keeps the dots in place. */
  lemma DotsEveryFourJoin(g: string, tail: string)
    requires DotsEveryFour(g) && g != [] && AllDigits(tail) && |tail| == 3
    ensures DotsEveryFour(g + "." + tail)
  {
    var r := g + "." + tail;
    forall i | 0 <= i < |r|
      ensures (IsDigit(r[i]) || r[i] == '.') && (r[i] == '.' <==> 0 < i && (|r| - i) % 4 == 0)
    {
      if i < |g| {
        assert r[i] == g[i];
        assert |r| - i == (|g| - i) + 4;
      } else if i == |g| {
        assert r[i] == '.';
      } else {
        assert r[i] == tail[i - |g| - 1];
      }
    }
  }

  /** `s.replace(/\./g, '')` */
  function StripDots(s: string): (r: string)
    ensures '.' !in r
  {
    if s == [] then []
    else (if s[0] == '.' then [] else [s[0]]) + StripDots(s[1..])
  }

  lemma {:induction false} StripDotsAppend(a: string, b: string)
    ensures StripDots(a + b) == StripDots(a) + StripDots(b)
    decreases |a|
  {
    if a == [] {
      assert a + b == b;
    } else {
      assert (a + b)[1..] == a[1..] + b;
      StripDotsAppend(a[1..], b);
    }
  }

  lemma {:induction false} StripDotsOfDigits(d: string)
    requires AllDigits(d)
    ensures StripDots(d) == d
    decreases |d|
  {
    if d != [] {
      StripDotsOfDigits(d[1..]);
    }
  }

  lemma StripDotsJoin(g: string, head: string, tail: string)
    requires StripDots(g) == head && AllDigits(tail)
    ensures StripDots(g + "." + tail) == head + tail
  {
    var x := g + ".";
    StripDotsAppend(g, ".");
    StripDotsDot();
    assert StripDots(x) == head;
    StripDotsAppend(x, tail);
    StripDotsOfDigits(tail);
  }

  lemma StripDotsDot()
    ensures StripDots(".") == []
  {
    assert "."[1..] == [];
  }

  /** Removing the dots from the grouped display gives back the digits. */
  lemma {:induction false} StripGroupThousands(d: string)
    requires AllDigits(d)
    ensures StripDots(GroupThousands(d)) == d
    decreases |d|
  {
    if |d| <= 3 {
      StripDotsOfDigits(d);
    } else {
      var head, tail := d[..|d| - 3], d[|d| - 3..];
      assert AllDigits(head) && AllDigits(tail);
      StripGroupThousands(head);
      StripDotsJoin(GroupThousands(head), head, tail);
      assert head + tail == d;
    }
  }

  // ---------------------------------------------------------------------
  // Decimal numerals

  /** The value of a string of decimal digits, most significant first. */
  function DecValue(d: string): nat
    requires AllDigits(d)
    decreases |d|
  {
    if d == [] then 0 else 10 * DecValue(d[..|d| - 1]) + DigitValue(d[|d| - 1])
  }

  /** `n.toString()` for a non-negative integer: shortest decimal numeral. */
  function NatToString(n: nat): (r: string)
    ensures AllDigits(r) && r != []
    ensures DecValue(r) == n
    ensures r[0] == '0' ==> n == 0
  {
    if n < 10 then [DigitChar(n)]
    else
      var r := NatToString(n / 10) + [DigitChar(n % 10)];
      assert r[..|r| - 1] == NatToString(n / 10);
      r
  }

  /** `i.toString()` for an integer. */
  function IntToString(i: int): (r: string)
    ensures r != []
    ensures i >= 0 ==> r == NatToString(i)
    ensures i < 0 ==> r == "-" + NatToString(-i)
  {
    if i < 0 then "-" + NatToString(-i) else NatToString(i)
  }

  function Repeat(c: char, k: nat): (r: string)
    ensures |r| == k && forall i :: 0 <= i < k ==> r[i] == c
  {
    if k == 0 then [] else [c] + Repeat(c, k - 1)
  }

  /** `s.padStart(n, c)` with a one-character pad: fills on the left up to
      length `n`, and never shortens `s`. */
  function PadStart(s: string, n: nat, c: char): (r: string)
    ensures |r| == if |s| >= n then |s| else n
    ensures r == Repeat(c, |r| - |s|) + s
  {
    if |s| >= n then (assert Repeat(c, 0) + s == s; s) else Repeat(c, n - |s|) + s
  }

  /** Leading zeros do not change the value of a numeral. */
  lemma {:induction false} DecValueLeadingZeros(k: nat, d: string)
    requires AllDigits(d)
    ensures AllDigits(Repeat('0', k) + d)
    ensures DecValue(Repeat('0', k) + d) == DecValue(d)
    decreases |d|
  {
    var z := Repeat('0', k);
    if d == [] {
      assert z + d == z;
      DecValueZeros(k);
    } else {
      var init := d[..|d| - 1];
      DecValueLeadingZeros(k, init);
      assert (z + d)[..|z + d| - 1] == z + init;
    }
  }

  lemma {:induction false} DecValueZeros(k: nat)
    ensures AllDigits(Repeat('0', k)) && DecValue(Repeat('0', k)) == 0
  {
    if k > 0 {
      DecValueZeros(k - 1);
      assert Repeat('0', k)[..k - 1] == Repeat('0', k - 1) by {
        RepeatSplit(k);
      }
    }
  }

  lemma RepeatSplit(k: nat)
    requires k > 0
    ensures Repeat('0', k) == Repeat('0', k - 1) + "0"
  {
    var a, b := Repeat('0', k), Repeat('0', k - 1) + "0";
    assert |a| == |b|;
    assert forall i :: 0 <= i < |a| ==> a[i] == b[i];
  }

  // ---------------------------------------------------------------------
  // parseInt (no radix argument)

  /** The characters JavaScript's `trim` and `parseInt` treat as white space:
      WhiteSpace and LineTerminator of the ECMAScript grammar. */
  predicate IsJsSpace(c: char) {
    c == '\t' || c == '\n' || c == '\U{B}' || c == '\U{C}' || c == '\r' || c == ' '
    || c == '\U{A0}' || c == '\U{1680}' || ('\U{2000}' <= c <= '\U{200A}')
    || c == '\U{2028}' || c == '\U{2029}' || c == '\U{202F}' || c == '\U{205F}'
    || c == '\U{3000}' || c == '\U{FEFF}'
  }

  function TrimStart(s: string): (r: string)
    ensures |r| <= |s| && r == s[|s| - |r|..]
    ensures r == [] || !IsJsSpace(r[0])
    ensures forall i :: 0 <= i < |s| - |r| ==> IsJsSpace(s[i])
  {
    if s != [] && IsJsSpace(s[0]) then
      var r := TrimStart(s[1..]);
      assert forall i :: 1 <= i < |s| ==> s[i] == s[1..][i - 1];
      r
    else s
  }

  function TrimEnd(s: string): (r: string)
    ensures |r| <= |s| && r == s[..|r|]
    ensures r == [] || !IsJsSpace(r[|r| - 1])
    ensures forall i :: |r| <= i < |s| ==> IsJsSpace(s[i])
  {
    if s != [] && IsJsSpace(s[|s| - 1]) then
      var r := TrimEnd(s[..|s| - 1]);
      assert forall i :: 0 <= i < |s| - 1 ==> s[i] == s[..|s| - 1][i];
      r
    else s
  }

  /** `s.trim()` */
  function Trim(s: string): string {
    TrimEnd(TrimStart(s))
  }

  /** One space on either side of a word is trimmed away. */
  lemma TrimPadded(w: string)
    requires w != [] && !IsJsSpace(w[0]) && !IsJsSpace(w[|w| - 1])
    ensures Trim(" " + w) == w && Trim(" " + w + " ") == w
  {
    assert (" " + w)[1..] == w;
    assert (" " + w + " ")[1..] == w + " ";
    assert TrimStart(w + " ") == w + " ";
    assert (w + " ")[..|w|] == w;
  }

  /** The longest prefix of `s` made of decimal digits. */
  function DigitPrefix(s: string): (r: string)
    ensures AllDigits(r) && |r| <= |s| && r == s[..|r|]
    ensures AllDigits(s) ==> r == s
  {
    if s != [] && IsDigit(s[0]) then [s[0]] + DigitPrefix(s[1..]) else []
  }

  predicate IsHexDigit(c: char) {
    IsDigit(c) || 'a' <= c <= 'f' || 'A' <= c <= 'F'
  }

  function HexDigitValue(c: char): (v: nat)
    requires IsHexDigit(c)
    ensures v < 16
  {
    if IsDigit(c) then DigitValue(c)
    else if 'a' <= c <= 'f' then c as int - 'a' as int + 10
    else c as int - 'A' as int + 10
  }

  /** The longest prefix of `s` made of hexadecimal digits. */
  function HexPrefix(s: string): (r: string)
    ensures |r| <= |s| && forall i :: 0 <= i < |r| ==> IsHexDigit(r[i])
  {
    if s != [] && IsHexDigit(s[0]) then [s[0]] + HexPrefix(s[1..]) else []
  }

  function HexValue(h: string): nat
    requires forall i :: 0 <= i < |h| ==> IsHexDigit(h[i])
    decreases |h|
  {
    if h == [] then 0 else 16 * HexValue(h[..|h| - 1]) + HexDigitValue(h[|h| - 1])
  }

  /** `parseInt(s)`: skips leading white space, reads an optional sign, then a
      "0x"/"0X" prefix selects base 16 and otherwise base 10; the longest run of
      digits of that base is the value, and no digit at all is NaN (`None`). */
  function ParseInt(s: string): Option<int> {
    var t := TrimStart(s);
    var neg := t != [] && t[0] == '-';
    var u := if t != [] && (t[0] == '-' || t[0] == '+') then t[1..] else t;
    if |u| >= 2 && u[0] == '0' && (u[1] == 'x' || u[1] == 'X') then
      var h := HexPrefix(u[2..]);
      var v: int := HexValue(h);
      if h == [] then None else Some(if neg then -v else v)
    else
      var d := DigitPrefix(u);
      var v: int := DecValue(d);
      if d == [] then None else Some(if neg then -v else v)
  }

  /** A non-empty string of decimal digits parses to its value. */
  lemma ParseIntDigits(d: string)
    requires AllDigits(d) && d != []
    ensures ParseInt(d) == Some(DecValue(d))
  {
    assert !IsJsSpace(d[0]);
    assert TrimStart(d) == d;
    assert |d| >= 2 ==> d[1] != 'x' && d[1] != 'X';
  }

  // ---------------------------------------------------------------------
  // split, endsWith, toLowerCase, includes

  /** `s.split(sep)` for a one-character separator. */
  function Split(s: string, sep: char): (r: seq<string>)
    ensures |r| >= 1
  {
    if s == [] then [""]
    else if s[0] == sep then [""] + Split(s[1..], sep)
    else
      var rest := Split(s[1..], sep);
      [[s[0]] + rest[0]] + rest[1..]
  }

  /** Joining the pieces with the separator gives back the string. */
  function Join(parts: seq<string>, sep: char): string
    requires |parts| >= 1
  {
    if |parts| == 1 then parts[0] else parts[0] + [sep] + Join(parts[1..], sep)
  }

  lemma {:induction false} SplitConcat(a: string, sep: char, b: string)
    ensures Split(a + [sep] + b, sep) == Split(a, sep) + Split(b, sep)
    decreases |a|
  {
    if a == [] {
      var s := a + [sep] + b;
      assert s == [sep] + b;
      assert s[1..] == b;
      assert Split(s, sep) == [""] + Split(b, sep);
    } else {
      SplitConcat(a[1..], sep, b);
      SplitConcatCons(a[0], a[1..], sep, b);
      assert a == [a[0]] + a[1..];
    }
  }

  /** The inductive step of `SplitConcat`: one more character `c` in front. */
  lemma SplitConcatCons(c: char, t: string, sep: char, b: string)
    requires Split(t + [sep] + b, sep) == Split(t, sep) + Split(b, sep)
    ensures Split([c] + t + [sep] + b, sep) == Split([c] + t, sep) + Split(b, sep)
  {
    var u := t + [sep] + b;
    assert [c] + t + [sep] + b == [c] + u;
    SplitCons(c, t, sep);
    SplitCons(c, u, sep);
    ConsAppend(c == sep, [c], Split(t, sep), Split(u, sep), Split(b, sep), Split([c] + t, sep), Split([c] + u, sep));
  }

  /** The sequence algebra behind `SplitConcatCons`. */
  lemma ConsAppend(isSep: bool, x: string, S: seq<string>, U: seq<string>, B: seq<string>, X: seq<string>, Y: seq<string>)
    requires |S| >= 1 && U == S + B
    requires X == if isSep then [""] + S else [x + S[0]] + S[1..]
    requires Y == if isSep then [""] + U else [x + U[0]] + U[1..]
    ensures Y == X + B
  {
    if isSep {
      assert [""] + (S + B) == ([""] + S) + B;
    } else {
      ExtendFirst(x, S, B);
    }
  }

  /** `Split` on a string given as its first character and the rest. */
  lemma SplitCons(c: char, t: string, sep: char)
    ensures Split([c] + t, sep)
         == if c == sep then [""] + Split(t, sep)
            else [[c] + Split(t, sep)[0]] + Split(t, sep)[1..]
  {
    assert ([c] + t)[0] == c && ([c] + t)[1..] == t;
  }

  /** Prefixing the first piece commutes with appending more pieces. */
  lemma ExtendFirst(x: string, S: seq<string>, B: seq<string>)
    requires |S| >= 1
    ensures [x + (S + B)[0]] + (S + B)[1..] == ([x + S[0]] + S[1..]) + B
  {
    assert (S + B)[0] == S[0];
    assert (S + B)[1..] == S[1..] + B;
  }

  lemma {:induction false} SplitJoin(s: string, sep: char)
    ensures Join(Split(s, sep), sep) == s
    decreases |s|
  {
    if s == [] {
    } else if s[0] == sep {
      SplitJoin(s[1..], sep);
      assert Split(s, sep)[1..] == Split(s[1..], sep);
    } else {
      var rest := Split(s[1..], sep);
      SplitJoin(s[1..], sep);
      var parts := Split(s, sep);
      assert parts[1..] == rest[1..];
      if |rest| == 1 {
      } else {
        assert Join(rest, sep) == rest[0] + [sep] + Join(rest[1..], sep);
      }
    }
  }

  /** A separator-free piece followed by the separator is one whole field. */
  lemma {:induction false} SplitPrefix(a: string, sep: char, b: string)
    requires sep !in a
    ensures Split(a + [sep] + b, sep) == [a] + Split(b, sep)
    decreases |a|
  {
    if a == [] {
      assert a + [sep] + b == [sep] + b;
      assert ([sep] + b)[1..] == b;
    } else {
      SplitPrefix(a[1..], sep, b);
      assert (a + [sep] + b)[1..] == a[1..] + [sep] + b;
      assert [a[0]] + a[1..] == a;
    }
  }

  lemma {:induction false} SplitNoSeparator(a: string, sep: char)
    requires sep !in a
    ensures Split(a, sep) == [a]
    decreases |a|
  {
    if a != [] {
      SplitNoSeparator(a[1..], sep);
      assert [a[0]] + a[1..] == a;
    }
  }

  /** `s.length`: the number of UTF-16 code units, two for a character
      outside the Basic Multilingual Plane. */
  function Utf16Length(s: string): (n: nat)
    ensures |s| <= n <= 2 * |s|
    ensures (forall i :: 0 <= i < |s| ==> s[i] as int <= 0xFFFF) ==> n == |s|
  {
    if s == [] then 0
    else (if s[0] as int > 0xFFFF then 2 else 1) + Utf16Length(s[1..])
  }

  predicate EndsWith(s: string, suffix: string) {
    |suffix| <= |s| && s[|s| - |suffix|..] == suffix
  }

  /** `toLowerCase()` on the ASCII letters. */
  function ToLower(s: string): (r: string)
    ensures |r| == |s|
  {
    if s == [] then []
    else [if 'A' <= s[0] <= 'Z' then (s[0] as int + 32) as char else s[0]] + ToLower(s[1..])
  }

  /** `s.includes(q)`: `q` occurs in `s` as a contiguous piece. */
  predicate Includes(s: string, q: string)
    decreases |s|
  {
    q <= s || (s != [] && Includes(s[1..], q))
  }

  lemma {:induction false} IncludesAt(s: string, q: string, i: nat)
    requires i + |q| <= |s| && s[i..i + |q|] == q
    ensures Includes(s, q)
    decreases i
  {
    if i > 0 {
      assert s[1..][i - 1..i - 1 + |q|] == q;
      IncludesAt(s[1..], q, i - 1);
    }
  }

  /** The empty query is included in every string. */
  lemma IncludesEmpty(s: string)
    ensures Includes(s, "")
  {
  }
}
