/** JSON scalar tokens as Python's decoder reads them and `json.dumps` writes them
    (RFC 8259, sections 6 and 7). Decoded strings are sequences of code points, since
    `\u` escapes may name surrogates that no character holds. */
module JsonLexer {
  import opened Text

  datatype Scalar =
    | Str(codes: seq<int>) | Int(n: int) | Float(text: string)
    | True | False | Null | Nan | Infinity(negative: bool)

  predicate IsSpace(c: char) {
    c == ' ' || c == '\n' || c == '\r' || c == '\t'
  }

  /** A position where a number token must have ended for the document to go on. */
  predicate Delimited(rest: string) {
    rest == "" || IsSpace(rest[0]) || rest[0] == ',' || rest[0] == '}' || rest[0] == ']'
  }

  // ---------------------------------------------------------------- strings

  /** Offset just past the closing quote, for text after the opening quote. */
  function ScanString(s: string): (n: Option<nat>)
    ensures n.Some? ==> 0 < n.value <= |s| && s[n.value - 1] == '"'
  {
    if s == "" || s[0] < ' ' then None
    else if s[0] == '"' then Some(1)
    else if s[0] == '\\' then
      if |s| < 2 then None
      else
        var n := ScanString(s[2..]);
        if n.None? then None else Some(n.value + 2)
    else
      var n := ScanString(s[1..]);
      if n.None? then None else Some(n.value + 1)
  }

  function HexValue(c: char): (v: Option<int>)
    ensures v.Some? ==> 0 <= v.value < 16
  {
    if '0' <= c <= '9' then Some(c as int - '0' as int)
    else if 'a' <= c <= 'f' then Some(c as int - 'a' as int + 10)
    else if 'A' <= c <= 'F' then Some(c as int - 'A' as int + 10)
    else None
  }

  function Hex4(s: string): (v: Option<int>)
    ensures v.Some? ==> |s| >= 4
  {
    if |s| < 4 then None
    else
      var a, b, c, d := HexValue(s[0]), HexValue(s[1]), HexValue(s[2]), HexValue(s[3]);
      if a.None? || b.None? || c.None? || d.None? then None
      else Some(((a.value * 16 + b.value) * 16 + c.value) * 16 + d.value)
  }

  function SimpleEscape(c: char): (v: Option<int>) {
    if c == '"' || c == '\\' || c == '/' then Some(c as int)
    else if c == 'b' then Some(8)
    else if c == 'f' then Some(12)
    else if c == 'n' then Some(10)
    else if c == 'r' then Some(13)
    else if c == 't' then Some(9)
    else None
  }

  function Prepend(code: int, rest: Option<seq<int>>): (r: Option<seq<int>>) {
    if rest.None? then None else Some([code] + rest.value)
  }

  /** The code points between two quotes; paired surrogate escapes combine. */
  function DecodeBody(s: string): (codes: Option<seq<int>>) {
    if s == "" then Some([])
    else if s[0] != '\\' then (if s[0] < ' ' then None else Prepend(s[0] as int, DecodeBody(s[1..])))
    else if |s| < 2 then None
    else if s[1] != 'u' then
      var e := SimpleEscape(s[1]);
      if e.None? then None else Prepend(e.value, DecodeBody(s[2..]))
    else
      var high := Hex4(s[2..]);
      if high.None? then None
      else if 0xD800 <= high.value <= 0xDBFF && |s| >= 8 && s[6] == '\\' && s[7] == 'u' then
        var low := Hex4(s[8..]);
        if low.None? then None
        else if 0xDC00 <= low.value <= 0xDFFF then
          Prepend(0x10000 + (high.value - 0xD800) * 0x400 + (low.value - 0xDC00), DecodeBody(s[12..]))
        else Prepend(high.value, DecodeBody(s[6..]))
      else Prepend(high.value, DecodeBody(s[6..]))
  }

  /** A whole string token at the start of `s`: its value and its length. */
  function LexString(s: string): (r: Option<(seq<int>, nat)>)
    ensures r.Some? ==> 2 <= r.value.1 <= |s|
  {
    if s == "" || s[0] != '"' then None
    else
      var n := ScanString(s[1..]);
      if n.None? then None
      else
        var codes := DecodeBody(s[1..n.value]);
        if codes.None? then None else Some((codes.value, n.value + 1))
  }

  lemma {:induction false} ScanStringLocal(s: string, t: string)
    requires ScanString(s).Some?
    ensures ScanString(s[..ScanString(s).value] + t) == ScanString(s)
  {
    var n := ScanString(s).value;
    var u := s[..n] + t;
    assert u[0] == s[0];
    if s[0] != '"' {
      var k := if s[0] == '\\' then 2 else 1;
      ScanStringLocal(s[k..], t);
      CutShifted(s, k, n, t);
    }
  }

  lemma LexStringLocal(s: string, t: string)
    requires LexString(s).Some?
    ensures LexString(s[..LexString(s).value.1] + t) == LexString(s)
  {
    var n := ScanString(s[1..]).value;
    var u := s[..n + 1] + t;
    ScanStringLocal(s[1..], t);
    assert u[1..] == s[1..][..n] + t;
    assert u[1..n] == s[1..n];
  }

  // ---------------------------------------------------------------- numbers

  function DigitRun(s: string): (r: nat)
    ensures r <= |s|
    ensures forall i | 0 <= i < r :: IsDigit(s[i])
    ensures r < |s| ==> !IsDigit(s[r])
  {
    if s == "" || !IsDigit(s[0]) then 0 else DigitRun(s[1..]) + 1
  }

  predicate DigitAt(s: string, i: nat) {
    i < |s| && IsDigit(s[i])
  }

  /** End of the integer part, or None where no number starts. */
  function IntegerEnd(s: string): (n: Option<nat>)
    ensures n.Some? ==> 0 < n.value <= |s|
  {
    var i := if s != "" && s[0] == '-' then 1 else 0;
    if !DigitAt(s, i) then None
    else if s[i] == '0' then Some(i + 1)
    else Some(i + DigitRun(s[i..]))
  }

  function FractionEnd(s: string, j: nat): (k: nat)
    requires j <= |s|
    ensures j <= k <= |s|
  {
    if j < |s| && s[j] == '.' && DigitAt(s, j + 1) then j + 1 + DigitRun(s[j + 1..]) else j
  }

  function ExponentDigits(s: string, k: nat): (q: nat) {
    if k + 1 < |s| && (s[k + 1] == '+' || s[k + 1] == '-') then k + 2 else k + 1
  }

  function ExponentEnd(s: string, k: nat): (e: nat)
    requires k <= |s|
    ensures k <= e <= |s|
  {
    if k < |s| && (s[k] == 'e' || s[k] == 'E') && DigitAt(s, ExponentDigits(s, k))
    then ExponentDigits(s, k) + DigitRun(s[ExponentDigits(s, k)..]) else k
  }

  /** The longest number at the start of `s`: where its integer part and the whole of it end. */
  function ScanNumber(s: string): (r: Option<(nat, nat)>)
    ensures r.Some? ==> 0 < r.value.0 <= r.value.1 <= |s|
  {
    var j := IntegerEnd(s);
    if j.None? then None else Some((j.value, ExponentEnd(s, FractionEnd(s, j.value))))
  }

  function IntegerValue(s: string): (v: int) {
    if s != "" && s[0] == '-' && AllDigits(s[1..]) then
      var m: int := NumeralValue(s[1..]);
      -m
    else if AllDigits(s) then NumeralValue(s)
    else 0
  }

  function NumberScalar(s: string, ends: (nat, nat)): (v: Scalar)
    requires ends.1 <= |s|
  {
    if ends.0 == ends.1 then Int(IntegerValue(s[..ends.1])) else Float(s[..ends.1])
  }

  lemma DigitRunLocal(s: string, n: nat, t: string)
    requires DigitRun(s) <= n <= |s|
    requires t == "" || !IsDigit(t[0])
    ensures DigitRun(s[..n] + t) == DigitRun(s)
  {
    var u := s[..n] + t;
    var r := DigitRun(s);
    assert forall i | 0 <= i < r :: u[i] == s[i];
    assert r < n ==> u[r] == s[r];
    assert r == n && t != "" ==> u[r] == t[0];
    DigitRunIs(u, r);
  }

  lemma {:induction false} DigitRunIs(s: string, r: nat)
    requires r <= |s| && (forall i | 0 <= i < r :: IsDigit(s[i])) && (r < |s| ==> !IsDigit(s[r]))
    ensures DigitRun(s) == r
  {
  }

  lemma IntegerLocal(s: string, n: nat, t: string)
    requires IntegerEnd(s).Some? && IntegerEnd(s).value <= n <= |s|
    requires t == "" || !IsDigit(t[0])
    ensures IntegerEnd(s[..n] + t) == IntegerEnd(s)
  {
    var u := s[..n] + t;
    var i := if s[0] == '-' then 1 else 0;
    assert u[i..] == s[i..][..n - i] + t;
    if s[i] != '0' {
      DigitRunLocal(s[i..], n - i, t);
    }
  }

  lemma FractionLocal(s: string, j: nat, n: nat, t: string)
    requires j <= |s| && FractionEnd(s, j) <= n <= |s|
    requires t == "" || (!IsDigit(t[0]) && t[0] != '.')
    ensures FractionEnd(s[..n] + t, j) == FractionEnd(s, j)
  {
    var u := s[..n] + t;
    assert j < n ==> u[j] == s[j];
    assert j + 1 < n ==> u[j + 1] == s[j + 1];
    assert n < |u| ==> u[n] == t[0];
    if FractionEnd(s, j) > j {
      assert u[j + 1..] == s[j + 1..][..n - j - 1] + t;
      DigitRunLocal(s[j + 1..], n - j - 1, t);
    }
  }

  lemma ExponentLocal(s: string, k: nat, t: string)
    requires k <= |s|
    requires t == "" || (!IsDigit(t[0]) && t[0] != 'e' && t[0] != 'E')
    ensures ExponentEnd(s[..ExponentEnd(s, k)] + t, k) == ExponentEnd(s, k)
  {
    hide DigitRun;
    var n := ExponentEnd(s, k);
    var u := s[..n] + t;
    assert n < |u| ==> u[n] == t[0];
    if n > k {
      var q := ExponentDigits(s, k);
      DigitsThere(s, q);
      assert u[k] == s[k] && u[k + 1] == s[k + 1] && u[q] == s[q];
      assert ExponentDigits(u, k) == q;
      CutShifted(s, q, n, t);
      DigitRunLocal(s[q..], n - q, t);
    }
  }

  lemma DigitsThere(s: string, q: nat)
    requires DigitAt(s, q)
    ensures q < |s| && DigitRun(s[q..]) > 0
  {
  }

  lemma CutShifted(s: string, q: nat, n: nat, t: string)
    requires q <= n <= |s|
    ensures (s[..n] + t)[q..] == s[q..][..n - q] + t
  {
  }

  lemma ScanNumberLocal(s: string, t: string)
    requires ScanNumber(s).Some? && Delimited(t)
    ensures ScanNumber(s[..ScanNumber(s).value.1] + t) == ScanNumber(s)
  {
    hide IntegerEnd, FractionEnd, ExponentEnd;
    var n := ScanNumber(s).value.1;
    var j := IntegerEnd(s).value;
    IntegerLocal(s, n, t);
    FractionLocal(s, j, n, t);
    ExponentLocal(s, FractionEnd(s, j), t);
  }

  // ---------------------------------------------------------------- scalars

  function StartsWith(s: string, word: string): (b: bool) {
    word <= s
  }

  /** `raw_decode` of a scalar at the start of `s`: value and length. */
  function Lex(s: string): (r: Option<(Scalar, nat)>)
    ensures r.Some? ==> 0 < r.value.1 <= |s|
  {
    if s == "" then None
    else if s[0] == '"' then
      var r := LexString(s);
      if r.None? then None else Some((Str(r.value.0), r.value.1))
    else if StartsWith(s, "null") then Some((Null, 4))
    else if StartsWith(s, "true") then Some((True, 4))
    else if StartsWith(s, "false") then Some((False, 5))
    else if ScanNumber(s).Some? then Some((NumberScalar(s, ScanNumber(s).value), ScanNumber(s).value.1))
    else if StartsWith(s, "NaN") then Some((Nan, 3))
    else if StartsWith(s, "Infinity") then Some((Infinity(false), 8))
    else if StartsWith(s, "-Infinity") then Some((Infinity(true), 9))
    else None
  }

  lemma WordLocal(s: string, n: nat, t: string, word: string)
    requires n <= |s| && |word| <= n
    ensures StartsWith(s[..n] + t, word) <==> StartsWith(s, word)
  {
    var u := s[..n] + t;
    assert u[..|word|] == s[..|word|];
    assert StartsWith(u, word) <==> u[..|word|] == word;
    assert StartsWith(s, word) <==> s[..|word|] == word;
  }

  lemma NotNumber(s: string)
    requires s != "" && s[0] != '-' && !IsDigit(s[0])
    ensures ScanNumber(s).None?
  {
  }

  /** A token keeps its value and its length in front of anything that may follow it. */
  lemma LexLocal(s: string, t: string)
    requires Lex(s).Some? && Delimited(t)
    ensures Lex(s[..Lex(s).value.1] + t) == Lex(s)
  {
    hide LexString, ScanNumber, NumberScalar;
    var n := Lex(s).value.1;
    var u := s[..n] + t;
    assert u[0] == s[0];
    if s[0] == '"' {
      LexStringLocal(s, t);
    } else if StartsWith(s, "null") || StartsWith(s, "true") {
      WordLocal(s, 4, t, "null");
      WordLocal(s, 4, t, "true");
    } else if StartsWith(s, "false") {
      WordLocal(s, 5, t, "null");
      WordLocal(s, 5, t, "true");
      WordLocal(s, 5, t, "false");
    } else if ScanNumber(s).Some? {
      NumberStart(s);
      NumberStartsNoWord(u);
      ScanNumberLocal(s, t);
      assert u[..n] == s[..n];
      SameNumber(s, u, ScanNumber(s).value);
    } else if StartsWith(s, "NaN") {
      NotNumber(u);
      WordLocal(s, 3, t, "NaN");
    } else if StartsWith(s, "Infinity") {
      NotNumber(u);
      WordLocal(s, 8, t, "Infinity");
    } else {
      assert u[1] == 'I';
      MinusWord(u);
      WordLocal(s, 9, t, "-Infinity");
    }
  }

  lemma NumberStart(s: string)
    requires ScanNumber(s).Some?
    ensures s != "" && (s[0] == '-' || IsDigit(s[0]))
  {
  }

  lemma NumberStartsNoWord(s: string)
    requires s != "" && (s[0] == '-' || IsDigit(s[0]))
    ensures !StartsWith(s, "null") && !StartsWith(s, "true") && !StartsWith(s, "false")
  {
  }

  lemma SameNumber(s: string, u: string, ends: (nat, nat))
    requires ends.1 <= |s| && ends.1 <= |u| && s[..ends.1] == u[..ends.1]
    ensures NumberScalar(s, ends) == NumberScalar(u, ends)
  {
  }

  lemma MinusWord(s: string)
    requires |s| > 1 && s[0] == '-' && s[1] == 'I'
    ensures ScanNumber(s).None?
  {
  }

  // ---------------------------------------------------------------- json.dumps

  const HEX := "0123456789abcdef"

  /** `json.dumps(..., ensure_ascii=False)` of one character. */
  function QuoteChar(c: char): (s: string) {
    if c == '"' then "\\\""
    else if c == '\\' then "\\\\"
    else if c == '\n' then "\\n"
    else if c == '\r' then "\\r"
    else if c == '\t' then "\\t"
    else if c as int == 8 then "\\b"
    else if c as int == 12 then "\\f"
    else if c < ' ' then "\\u00" + [HEX[c as int / 16], HEX[c as int % 16]]
    else [c]
  }

  function QuoteBody(s: string): (q: string) {
    if s == "" then "" else QuoteChar(s[0]) + QuoteBody(s[1..])
  }

  function Codes(s: string): (codes: seq<int>) {
    if s == "" then [] else [s[0] as int] + Codes(s[1..])
  }

  function DumpsText(s: string): (token: string) {
    "\"" + QuoteBody(s) + "\""
  }

  function DumpsInt(n: int): (token: string) {
    if n < 0 then "-" + Decimal(-n) else Decimal(n)
  }

  lemma ScanPlain(c: char, rest: string)
    requires ScanString(rest).Some? && c >= ' ' && c != '"' && c != '\\'
    ensures ScanString([c] + rest) == Some(1 + ScanString(rest).value)
  {
    assert ([c] + rest)[1..] == rest;
  }

  lemma ScanEscape(c: char, rest: string)
    requires ScanString(rest).Some?
    ensures ScanString(['\\', c] + rest) == Some(2 + ScanString(rest).value)
  {
    assert (['\\', c] + rest)[2..] == rest;
  }

  lemma ScanLong(h: char, l: char, rest: string)
    requires ScanString(rest).Some?
    requires h >= ' ' && h != '"' && h != '\\' && l >= ' ' && l != '"' && l != '\\'
    ensures ScanString("\\u00" + [h, l] + rest) == Some(6 + ScanString(rest).value)
  {
    hide ScanString;
    var w2, w1 := [l] + rest, [h] + ([l] + rest);
    ScanPlain(l, rest);
    ScanPlain(h, w2);
    ScanPlain('0', w1);
    ScanPlain('0', ['0'] + w1);
    ScanEscape('u', ['0'] + (['0'] + w1));
    assert "\\u00" + [h, l] + rest == ['\\', 'u'] + (['0'] + (['0'] + w1));
  }

  lemma QuoteCharShape(c: char)
    ensures var q := QuoteChar(c);
      || (|q| == 1 && q == [c] && c >= ' ' && c != '"' && c != '\\')
      || (|q| == 2 && q[0] == '\\')
      || (|q| == 6 && q == "\\u00" + [q[4], q[5]] && q[4] >= '0' && q[4] <= 'f' && q[5] >= '0' && q[5] <= 'f' && q[4] != '\\' && q[5] != '\\')
  {
  }

  lemma ScanQuoted(c: char, rest: string)
    requires ScanString(rest).Some?
    ensures ScanString(QuoteChar(c) + rest) == Some(|QuoteChar(c)| + ScanString(rest).value)
  {
    hide ScanString, QuoteChar;
    QuoteCharShape(c);
    var q := QuoteChar(c);
    if |q| == 6 {
      ScanLong(q[4], q[5], rest);
    } else if |q| == 2 {
      ScanEscape(q[1], rest);
      assert q + rest == ['\\', q[1]] + rest;
    } else {
      ScanPlain(c, rest);
    }
  }

  lemma DecodeShort(c: char, rest: string)
    requires c != 'u' && SimpleEscape(c).Some? && DecodeBody(rest).Some?
    ensures DecodeBody(['\\', c] + rest) == Some([SimpleEscape(c).value] + DecodeBody(rest).value)
  {
    assert (['\\', c] + rest)[2..] == rest;
  }

  lemma DecodeLong(s: string)
    requires |s| >= 6 && s[0] == '\\' && s[1] == 'u'
    requires Hex4(s[2..]).Some? && Hex4(s[2..]).value < 0xD800 && DecodeBody(s[6..]).Some?
    ensures DecodeBody(s) == Some([Hex4(s[2..]).value] + DecodeBody(s[6..]).value)
  {
  }

  lemma LowHex(s: string, v: nat)
    requires v < 32 && |s| >= 4 && s[0] == '0' && s[1] == '0' && s[2] == HEX[v / 16] && s[3] == HEX[v % 16]
    ensures Hex4(s) == Some(v)
  {
  }

  lemma DecodeQuoted(c: char, rest: string)
    requires DecodeBody(rest).Some?
    ensures DecodeBody(QuoteChar(c) + rest) == Some([c as int] + DecodeBody(rest).value)
  {
    hide DecodeBody, Hex4;
    var q := QuoteChar(c);
    var u := q + rest;
    if |q| == 6 {
      assert u[2..][0] == '0' && u[2..][1] == '0' && u[2..][2] == q[4] && u[2..][3] == q[5];
      LowHex(u[2..], c as int);
      assert u[6..] == rest;
      DecodeLong(u);
    } else if |q| == 2 {
      DecodeShort(q[1], rest);
      assert u == ['\\', q[1]] + rest;
    } else {
      DecodePlain(c, rest);
    }
  }

  lemma DecodePlain(c: char, rest: string)
    requires c >= ' ' && c != '\\' && DecodeBody(rest).Some?
    ensures DecodeBody([c] + rest) == Some([c as int] + DecodeBody(rest).value)
  {
    assert ([c] + rest)[1..] == rest;
  }

  lemma {:induction false} QuotedBody(s: string)
    ensures ScanString(QuoteBody(s) + "\"") == Some(|QuoteBody(s)| + 1)
    ensures DecodeBody(QuoteBody(s)) == Some(Codes(s))
  {
    hide ScanString, DecodeBody, QuoteChar;
    if s == "" {
      EmptyBody();
      assert "" + "\"" == "\"";
    } else {
      var (q, rest) := (QuoteChar(s[0]), QuoteBody(s[1..]));
      QuotedBody(s[1..]);
      ScanQuoted(s[0], rest + "\"");
      DecodeQuoted(s[0], rest);
      hide QuoteBody, Codes;
      assert q + rest + "\"" == q + (rest + "\"");
    }
  }

  lemma EmptyBody()
    ensures ScanString("\"") == Some(1) && DecodeBody("") == Some([])
  {
  }

  /** What is written for a text reads back as that text, in front of anything. */
  lemma TextRoundTrip(s: string, t: string)
    requires Delimited(t)
    ensures Lex(DumpsText(s) + t) == Some((Str(Codes(s)), |DumpsText(s)|))
  {
    var d := DumpsText(s);
    WrittenLexes(s);
    hide Lex, Codes, QuoteBody;
    LexLocal(d, t);
    assert d[..|d|] == d;
  }

  lemma WrittenLexes(s: string)
    ensures Lex(DumpsText(s)) == Some((Str(Codes(s)), |DumpsText(s)|))
    ensures LexString(DumpsText(s)) == Some((Codes(s), |DumpsText(s)|))
  {
    hide ScanString, DecodeBody, QuoteBody, Codes, ScanNumber, NumberScalar;
    var d := DumpsText(s);
    QuotedBody(s);
    var n := |QuoteBody(s)| + 1;
    assert d[1..] == QuoteBody(s) + "\"";
    assert d[1..n] == QuoteBody(s);
    assert LexString(d) == Some((Codes(s), |d|));
    hide LexString;
  }

  lemma DigitsOnly(s: string)
    requires AllDigits(s)
    ensures DigitRun(s) == |s|
  {
    DigitRunIs(s, |s|);
  }

  lemma WholeNumber(d: string, i: nat)
    requires i <= 1 && i < |d| && (i == 1 <==> d[0] == '-') && AllDigits(d[i..])
    requires d[i] == '0' ==> |d| == i + 1
    ensures ScanNumber(d) == Some((|d|, |d|))
  {
    DigitsOnly(d[i..]);
    assert d[i] == d[i..][0];
  }

  /** ... and the same for an integer. */
  lemma IntRoundTrip(n: int, t: string)
    requires Delimited(t)
    ensures Lex(DumpsInt(n) + t) == Some((Int(n), |DumpsInt(n)|))
  {
    hide ScanNumber;
    var d := DumpsInt(n);
    var i := if n < 0 then 1 else 0;
    assert d[i..] == Decimal(if n < 0 then -n else n);
    assert d[i] == d[i..][0];
    WholeNumber(d, i);
    assert d[..|d|] == d;
    NumberStartsNoWord(d);
    LexLocal(d, t);
  }

  /** Two texts with the same code points are the same text. */
  lemma {:induction false} CodesInjective(a: string, b: string)
    requires Codes(a) == Codes(b)
    ensures a == b
  {
    if a != "" {
      assert b != "";
      assert Codes(a)[0] == Codes(b)[0] && Codes(a)[1..] == Codes(b)[1..];
      CodesInjective(a[1..], b[1..]);
      assert a == [a[0]] + a[1..] && b == [b[0]] + b[1..];
    }
  }
}
