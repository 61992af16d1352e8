/** `encodeURIComponent` and the query-string reading of `URLSearchParams`.
    The certificate's verification link carries its number through both:
    percent-encoded with UTF-8 (section 2.1 of RFC 3986, the byte encoding of
    RFC 3629) when the link is made, read back by the
    application/x-www-form-urlencoded parser (section 5.1 of the WHATWG URL
    Standard) on the verification page. */
module UriComponent {
  import opened Wrappers
  import opened JsString

  type Byte = b: int | 0 <= b < 256

  // ---------------------------------------------------------------------
  // UTF-8 (section 3 of RFC 3629)

  /** The UTF-8 bytes of one Unicode scalar value. */
  function Utf8(c: char): (bs: seq<Byte>)
    ensures 1 <= |bs| <= 4
    ensures (c as int < 0x80) == (bs == [c as int])
  {
    var v := c as int;
    if v < 0x80 then [v]
    else if v < 0x800 then [0xC0 + v / 64, 0x80 + v % 64]
    else if v < 0x10000 then [0xE0 + v / 4096, 0x80 + v / 64 % 64, 0x80 + v % 64]
    else [0xF0 + v / 0x40000, 0x80 + v / 4096 % 64, 0x80 + v / 64 % 64, 0x80 + v % 64]
  }

  function Utf8Encode(s: string): seq<Byte> {
    if s == [] then [] else Utf8(s[0]) + Utf8Encode(s[1..])
  }

  predicate IsCont(b: Byte) { 0x80 <= b < 0xC0 }

  /** The replacement character a decoder emits for a malformed sequence. */
  const Replacement: char := '\U{FFFD}'

  /** Decodes the scalar value at the front of `bs`; the second component is
      the number of bytes it takes. A malformed sequence gives the
      replacement character and consumes one byte. */
  function DecodeOne(bs: seq<Byte>): (r: (char, nat))
    requires bs != []
    ensures 1 <= r.1 <= |bs|
  {
    var b0: int := bs[0];
    if b0 < 0x80 then (b0 as char, 1)
    else if 0xC2 <= b0 < 0xE0 && |bs| >= 2 && IsCont(bs[1]) then
      var v: int := (b0 - 0xC0) * 64 + (bs[1] as int - 0x80);
      (v as char, 2)
    else if 0xE0 <= b0 < 0xF0 && |bs| >= 3 && IsCont(bs[1]) && IsCont(bs[2]) then
      var v: int := (b0 - 0xE0) * 4096 + (bs[1] as int - 0x80) * 64 + (bs[2] as int - 0x80);
      if 0x800 <= v && !(0xD800 <= v < 0xE000) then (v as char, 3) else (Replacement, 1)
    else if 0xF0 <= b0 < 0xF5 && |bs| >= 4 && IsCont(bs[1]) && IsCont(bs[2]) && IsCont(bs[3]) then
      var v: int := (b0 - 0xF0) * 0x40000 + (bs[1] as int - 0x80) * 4096 + (bs[2] as int - 0x80) * 64
        + (bs[3] as int - 0x80);
      if 0x10000 <= v < 0x110000 then (v as char, 4) else (Replacement, 1)
    else (Replacement, 1)
  }

  /** UTF-8 decoding without byte-order-mark handling. */
  function Utf8Decode(bs: seq<Byte>): string
    decreases |bs|
  {
    if bs == [] then []
    else
      var (c, n) := DecodeOne(bs);
      [c] + Utf8Decode(bs[n..])
  }

  /** The bytes of a character are read back as that character. */
  lemma DecodeOneUtf8(c: char, rest: seq<Byte>)
    ensures DecodeOne(Utf8(c) + rest) == (c, |Utf8(c)|)
  {
    var v := c as int;
    var bs := Utf8(c) + rest;
    if v < 0x80 {
    } else if v < 0x800 {
      assert bs[0] == 0xC0 + v / 64 && bs[1] == 0x80 + v % 64;
    } else if v < 0x10000 {
      assert bs[0] == 0xE0 + v / 4096 && bs[1] == 0x80 + v / 64 % 64 && bs[2] == 0x80 + v % 64;
      Split3(v);
    } else {
      assert bs[0] == 0xF0 + v / 0x40000 && bs[1] == 0x80 + v / 4096 % 64;
      assert bs[2] == 0x80 + v / 64 % 64 && bs[3] == 0x80 + v % 64;
      Split4(v);
    }
  }

  lemma Split3(v: nat)
    requires v < 0x10000
    ensures v / 4096 * 4096 + v / 64 % 64 * 64 + v % 64 == v
  {
    assert v == v / 64 * 64 + v % 64;
    assert v / 64 == v / 64 / 64 * 64 + v / 64 % 64;
    assert v / 64 / 64 == v / 4096;
  }

  lemma Split4(v: nat)
    ensures v / 0x40000 * 0x40000 + v / 4096 % 64 * 4096 + v / 64 % 64 * 64 + v % 64 == v
  {
    var a := v / 64;
    var b := a / 64;
    var c := b / 64;
    assert v == a * 64 + v % 64;
    assert a == b * 64 + a % 64;
    assert b == c * 64 + b % 64;
    assert v / 4096 == b;
    assert v / 0x40000 == c;
  }

  /** Decoding undoes encoding on every string. */
  lemma {:induction false} Utf8RoundTrip(s: string)
    ensures Utf8Decode(Utf8Encode(s)) == s
    decreases |s|
  {
    if s != [] {
      var bs := Utf8Encode(s);
      DecodeOneUtf8(s[0], Utf8Encode(s[1..]));
      assert bs[|Utf8(s[0])|..] == Utf8Encode(s[1..]);
      Utf8RoundTrip(s[1..]);
    }
  }

  // ---------------------------------------------------------------------
  // encodeURIComponent

  /** The characters `encodeURIComponent` leaves as they are: ASCII letters,
      digits and `- _ . ! ~ * ' ( )`. */
  predicate Unreserved(c: char) {
    'A' <= c <= 'Z' || 'a' <= c <= 'z' || '0' <= c <= '9'
    || c == '-' || c == '_' || c == '.' || c == '!' || c == '~' || c == '*'
    || c == '\'' || c == '(' || c == ')'
  }

  const HexUpper: string := "0123456789ABCDEF"

  /** Each byte as `%` and two upper-case hexadecimal digits. */
  function PercentBytes(bs: seq<Byte>): (r: string)
    ensures |r| == 3 * |bs|
    ensures forall i :: 0 <= i < |r| ==> Unreserved(r[i]) || r[i] == '%'
  {
    if bs == [] then []
    else PercentTriple(bs[0]) + PercentBytes(bs[1..])
  }

  function EncodeChar(c: char): (r: string)
    ensures r != []
    ensures forall i :: 0 <= i < |r| ==> Unreserved(r[i]) || r[i] == '%'
  {
    if Unreserved(c) then [c] else PercentBytes(Utf8(c))
  }

  /** `encodeURIComponent(s)`. Its output is made of unreserved characters and
      `%` only, so it never holds a `&`, `=`, `+`, `?` or `#` that would end or
      split a query parameter. */
  function Encode(s: string): (r: string)
    ensures forall i :: 0 <= i < |r| ==> Unreserved(r[i]) || r[i] == '%'
  {
    if s == [] then [] else EncodeChar(s[0]) + Encode(s[1..])
  }

  /** A string of unreserved characters is its own encoding. */
  lemma {:induction false} EncodeUnreserved(s: string)
    requires forall i :: 0 <= i < |s| ==> Unreserved(s[i])
    ensures Encode(s) == s
    decreases |s|
  {
    if s != [] {
      EncodeUnreserved(s[1..]);
    }
  }

  // ---------------------------------------------------------------------
  // application/x-www-form-urlencoded values

  predicate IsAsciiHex(c: char) {
    '0' <= c <= '9' || 'A' <= c <= 'F' || 'a' <= c <= 'f'
  }

  function AsciiHexValue(c: char): (v: nat)
    requires IsAsciiHex(c)
    ensures v < 16
  {
    if '0' <= c <= '9' then c as int - '0' as int
    else if 'A' <= c <= 'F' then c as int - 'A' as int + 10
    else c as int - 'a' as int + 10
  }

  /** The bytes of a form value: its UTF-8 bytes with `+` read as a space and
      `%` followed by two hexadecimal digits read as that byte; any other `%`
      stays a literal `%`. */
  function FormBytes(s: string): seq<Byte>
    decreases |s|
  {
    if s == [] then []
    else if s[0] == '%' && |s| >= 3 && IsAsciiHex(s[1]) && IsAsciiHex(s[2]) then
      [16 * AsciiHexValue(s[1]) + AsciiHexValue(s[2])] + FormBytes(s[3..])
    else if s[0] == '+' then [0x20] + FormBytes(s[1..])
    else Utf8(s[0]) + FormBytes(s[1..])
  }

  /** A name or value of a query parameter, decoded. */
  function FormDecode(s: string): string {
    Utf8Decode(FormBytes(s))
  }

  lemma {:induction false} FormBytesPercent(bs: seq<Byte>, rest: string)
    ensures FormBytes(PercentBytes(bs) + rest) == bs + FormBytes(rest)
    decreases |bs|
  {
    if bs == [] {
      assert PercentBytes(bs) + rest == rest;
    } else {
      var b := bs[0];
      var t := PercentBytes(bs[1..]) + rest;
      assert PercentBytes(bs) + rest == PercentTriple(b) + t;
      FormBytesTriple(b, t);
      FormBytesPercent(bs[1..], rest);
      ConsBytes(bs, FormBytes(PercentTriple(b) + t), FormBytes(t), FormBytes(rest));
    }
  }

  lemma ConsBytes(bs: seq<Byte>, x: seq<Byte>, y: seq<Byte>, z: seq<Byte>)
    requires bs != [] && x == [bs[0]] + y && y == bs[1..] + z
    ensures x == bs + z
  {
    assert [bs[0]] + (bs[1..] + z) == ([bs[0]] + bs[1..]) + z;
    assert [bs[0]] + bs[1..] == bs;
  }

  function PercentTriple(b: Byte): string {
    ['%', HexUpper[b / 16], HexUpper[b % 16]]
  }

  /** One percent-encoded byte is read back as that byte. */
  lemma FormBytesTriple(b: Byte, t: string)
    ensures FormBytes(PercentTriple(b) + t) == [b] + FormBytes(t)
  {
    var s := PercentTriple(b) + t;
    assert s[0] == '%' && s[1] == HexUpper[b / 16] && s[2] == HexUpper[b % 16];
    HexUpperValue(b / 16);
    HexUpperValue(b % 16);
    assert s[3..] == t;
  }

  lemma HexUpperValue(d: nat)
    requires d < 16
    ensures IsAsciiHex(HexUpper[d]) && AsciiHexValue(HexUpper[d]) == d
  {
  }

  lemma FormBytesEncodeChar(c: char, rest: string)
    ensures FormBytes(EncodeChar(c) + rest) == Utf8(c) + FormBytes(rest)
  {
    if Unreserved(c) {
      assert (EncodeChar(c) + rest)[1..] == rest;
    } else {
      FormBytesPercent(Utf8(c), rest);
    }
  }

  lemma {:induction false} FormBytesEncode(s: string)
    ensures FormBytes(Encode(s)) == Utf8Encode(s)
    decreases |s|
  {
    if s != [] {
      FormBytesEncodeChar(s[0], Encode(s[1..]));
      FormBytesEncode(s[1..]);
    }
  }

  /** Reading a percent-encoded value back gives the original string, for
      every string. */
  lemma EncodeRoundTrip(s: string)
    ensures FormDecode(Encode(s)) == s
  {
    FormBytesEncode(s);
    Utf8RoundTrip(s);
  }

  // ---------------------------------------------------------------------
  // Reading one parameter of a URL's query

  /** What follows the first `c` in `s`, if there is one. */
  function AfterFirst(s: string, c: char): (r: Option<string>)
    ensures r.Some? ==> c in s && |r.value| < |s| && r.value == s[|s| - |r.value|..]
    ensures r.None? ==> c !in s
  {
    if s == [] then None else if s[0] == c then Some(s[1..]) else AfterFirst(s[1..], c)
  }

  lemma {:induction false} AfterFirstPrefix(a: string, c: char, b: string)
    requires c !in a
    ensures AfterFirst(a + [c] + b, c) == Some(b)
    decreases |a|
  {
    if a == [] {
      assert a + [c] + b == [c] + b;
    } else {
      assert (a + [c] + b)[1..] == a[1..] + [c] + b;
      AfterFirstPrefix(a[1..], c, b);
    }
  }

  /** The query of a URL: after the first `?`, up to the fragment. */
  function QueryOf(url: string): string {
    match AfterFirst(url, '?')
    case None => ""
    case Some(rest) => Split(rest, '#')[0]
  }

  /** A `name=value` piece split at its first `=`; without one the value is empty. */
  function NameValue(piece: string): (string, string) {
    match AfterFirst(piece, '=')
    case None => (piece, "")
    case Some(v) => (piece[..|piece| - |v| - 1], v)
  }

  /** `new URLSearchParams(query).get(name)`: the decoded value of the first
      non-empty `&`-separated piece whose decoded name is `name`. */
  function ParamGet(pieces: seq<string>, name: string): Option<string> {
    if pieces == [] then None
    else if pieces[0] == "" then ParamGet(pieces[1..], name)
    else
      var (n, v) := NameValue(pieces[0]);
      if FormDecode(n) == name then Some(FormDecode(v)) else ParamGet(pieces[1..], name)
  }

  function SearchParam(url: string, name: string): Option<string> {
    ParamGet(Split(QueryOf(url), '&'), name)
  }

  /** A link `base + "?" + name + "=" + encodeURIComponent(value)`, where the base
      holds no `?` or `#` and the name is plain, carries `value` back unchanged
      as the parameter `name`. */
  lemma LinkParamRoundTrip(base: string, name: string, value: string)
    requires '?' !in base && '#' !in base
    requires name != [] && forall i :: 0 <= i < |name| ==> Unreserved(name[i])
    ensures SearchParam(base + "?" + name + "=" + Encode(value), name) == Some(value)
  {
    var enc := Encode(value);
    var q := name + "=" + enc;
    assert base + "?" + name + "=" + enc == base + "?" + q;
    PieceHasNoDelimiter(name, enc);
    QueryOfLink(base, q);
    SplitNoSeparator(q, '&');
    NameValueOf(name, enc);
    EncodeUnreserved(name);
    EncodeRoundTrip(name);
    EncodeRoundTrip(value);
  }

  lemma PieceHasNoDelimiter(name: string, enc: string)
    requires forall i :: 0 <= i < |name| ==> Unreserved(name[i])
    requires forall i :: 0 <= i < |enc| ==> Unreserved(enc[i]) || enc[i] == '%'
    ensures '#' !in name + "=" + enc && '&' !in name + "=" + enc && '=' !in name
  {
    var q := name + "=" + enc;
    forall i | 0 <= i < |q| ensures q[i] != '#' && q[i] != '&' {
      if i < |name| { assert q[i] == name[i]; }
      else if i > |name| { assert q[i] == enc[i - |name| - 1]; }
    }
    forall i | 0 <= i < |name| ensures name[i] != '=' { assert Unreserved(name[i]); }
  }

  lemma QueryOfLink(base: string, q: string)
    requires '?' !in base && '#' !in q
    ensures QueryOf(base + "?" + q) == q
  {
    assert base + "?" + q == base + ['?'] + q;
    AfterFirstPrefix(base, '?', q);
    SplitNoSeparator(q, '#');
  }

  lemma NameValueOf(name: string, v: string)
    requires '=' !in name
    ensures NameValue(name + "=" + v) == (name, v)
  {
    var p := name + "=" + v;
    assert p == name + ['='] + v;
    AfterFirstPrefix(name, '=', v);
    assert p[..|p| - |v| - 1] == name;
  }
}
