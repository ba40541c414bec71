/** The parser of `scripts/version_plan.py` that keeps scalar offsets: a concrete syntax tree,
    the parse of a text into it, and the proof that parsing and printing are inverse. */
module JsonDocument {
  import opened Text
  import opened JsonLexer

  /** A token, or the text between two brackets. */
  datatype Node =
    | Token(text: string)
    | Branch(braces: bool, pad: string, entries: Entries)

  /** Members or elements up to the closing bracket. Texts between brackets are, in order,
      `key gap : before value after` and, unless it is the last, `, next`. */
  datatype Entries =
    | End
    | Entry(key: string, gap: string, before: string, value: Node, after: string, next: string, rest: Entries)

  function Open(braces: bool): (c: char) { if braces then '{' else '[' }

  function Close(braces: bool): (c: char) { if braces then '}' else ']' }

  function Head(braces: bool, e: Entries): (s: string)
    requires e.Entry?
  {
    if braces then e.key + (e.gap + ":") else ""
  }

  function Print(node: Node): (s: string)
    decreases node, 0
  {
    match node
    case Token(text) => text
    case Branch(braces, pad, entries) => [Open(braces)] + (pad + PrintEntries(braces, entries))
  }

  /** One member or element with the white space around its value. */
  function PrintEntry(braces: bool, e: Entries): (s: string)
    requires e.Entry?
    decreases e, 0
  {
    Head(braces, e) + (e.before + (Print(e.value) + e.after))
  }

  /** The closing bracket, or a comma and the entries after it. */
  function PrintRest(braces: bool, next: string, rest: Entries): (s: string)
    ensures s != "" && (s[0] == ',' || s[0] == Close(braces))
    decreases rest, 2
  {
    if rest.End? then [Close(braces)] else [','] + (next + PrintEntries(braces, rest))
  }

  function PrintEntries(braces: bool, e: Entries): (s: string)
    ensures s != ""
    decreases e, 1
  {
    if e.End? then [Close(braces)] else PrintEntry(braces, e) + PrintRest(braces, e.next, e.rest)
  }

  // ---------------------------------------------------------------- parsing

  predicate Spaces(s: string) { forall i | 0 <= i < |s| :: IsSpace(s[i]) }

  /** How much white space `s` starts with. */
  function Blank(s: string): (n: nat)
    ensures n <= |s| && Spaces(s[..n])
    ensures n < |s| ==> !IsSpace(s[n])
  {
    if s == "" || !IsSpace(s[0]) then 0 else Blank(s[1..]) + 1
  }

  datatype HeadText = HeadText(key: string, gap: string, size: nat)

  function KeyCodes(key: string): (codes: seq<int>) {
    if LexString(key).Some? then LexString(key).value.0 else []
  }

  /** The key of a member with its colon, refused when the object already has it;
      nothing for an element. */
  function ParseHead(braces: bool, s: string, seen: set<seq<int>>): (r: Option<HeadText>)
    ensures r.Some? ==> r.value.size <= |s|
  {
    if !braces then Some(HeadText("", "", 0))
    else
      var k := LexString(s);
      if k.None? || k.value.0 in seen then None
      else
        var n := k.value.1;
        var g := Blank(s[n..]);
        if n + g < |s| && s[n + g] == ':' then Some(HeadText(s[..n], s[n..n + g], n + g + 1)) else None
  }

  function Seen(braces: bool, key: string, seen: set<seq<int>>): (r: set<seq<int>>) {
    if braces then seen + {KeyCodes(key)} else seen
  }

  /** A value at the very start of `s` and its length. */
  function ParseNode(s: string): (r: Option<(Node, nat)>)
    ensures r.Some? ==> 0 < r.value.1 <= |s|
    decreases |s|, 0
  {
    if s != "" && (s[0] == '{' || s[0] == '[') then
      var braces := s[0] == '{';
      var pad := Blank(s[1..]);
      var inside := s[1 + pad..];
      if inside != "" && inside[0] == Close(braces) then Some((Branch(braces, s[1..1 + pad], End), pad + 2))
      else
        var e := ParseEntries(braces, inside, {});
        if e.None? then None else Some((Branch(braces, s[1..1 + pad], e.value.0), 1 + pad + e.value.1))
    else
      var t := Lex(s);
      if t.None? then None else Some((Token(s[..t.value.1]), t.value.1))
  }

  /** One member or element with the white space around its value; what follows it is visible. */
  function ParseEntry(braces: bool, s: string, seen: set<seq<int>>): (r: Option<(Entries, nat)>)
    ensures r.Some? ==> 0 < r.value.1 < |s| && r.value.0.Entry? && r.value.0.rest.End?
    decreases |s|, 1
  {
    var head := ParseHead(braces, s, seen);
    if head.None? then None
    else
      var h := head.value.size;
      var b := Blank(s[h..]);
      var v := ParseNode(s[h + b..]);
      if v.None? then None else Assembled(s, head.value, b, v.value.0, v.value.1)
  }

  /** The entry of a head and a value, with the white space after it. */
  function Assembled(s: string, head: HeadText, b: nat, v: Node, n: nat): (r: Option<(Entries, nat)>)
    requires head.size + b + n <= |s| && n > 0
    ensures r.Some? ==> 0 < r.value.1 < |s| && r.value.0.Entry? && r.value.0.rest.End?
  {
    var (h, k) := (head.size, head.size + b + n);
    var a := Blank(s[k..]);
    if k + a == |s| then None
    else Some((Entry(head.key, head.gap, s[h..h + b], v, s[k..k + a], "", End), k + a))
  }

  /** The entries at the start of `s`, up to and with the closing bracket. */
  function ParseEntries(braces: bool, s: string, seen: set<seq<int>>): (r: Option<(Entries, nat)>)
    ensures r.Some? ==> 0 < r.value.1 <= |s| && r.value.0.Entry?
    decreases |s|, 2
  {
    var one := ParseEntry(braces, s, seen);
    if one.None? then None
    else
      var (e, m) := one.value;
      if s[m] == Close(braces) then Some((e, m + 1))
      else if s[m] != ',' then None
      else
        var more := ParseMore(braces, s[m + 1..], Seen(braces, e.key, seen));
        if more.None? then None
        else Some((e.(next := more.value.0, rest := more.value.1), m + 1 + more.value.2))
  }

  /** What follows a comma: white space and at least one entry. */
  function ParseMore(braces: bool, s: string, seen: set<seq<int>>): (r: Option<(string, Entries, nat)>)
    ensures r.Some? ==> 0 < r.value.2 <= |s| && r.value.1.Entry?
    decreases |s|, 3
  {
    var n := Blank(s);
    var more := ParseEntries(braces, s[n..], seen);
    if more.None? then None else Some((s[..n], more.value.0, n + more.value.1))
  }

  // ---------------------------------------------------------------- printing is an inverse

  predicate IsToken(text: string) { Lex(text).Some? && Lex(text).value.1 == |text| }

  predicate IsKey(text: string) { LexString(text).Some? && LexString(text).value.1 == |text| }

  predicate WellFormed(node: Node)
    decreases node, 0
  {
    match node
    case Token(text) => IsToken(text)
    case Branch(braces, pad, entries) => Spaces(pad) && WellFormedEntries(braces, entries, {})
  }

  predicate WellFormedHead(braces: bool, e: Entries, seen: set<seq<int>>)
    requires e.Entry?
  {
    && Spaces(e.gap) && Spaces(e.before) && Spaces(e.after) && Spaces(e.next)
    && (e.rest.End? ==> e.next == "")
    && (if braces then IsKey(e.key) && KeyCodes(e.key) !in seen else e.key == "" && e.gap == "" && e.before == "")
  }

  predicate WellFormedEntries(braces: bool, e: Entries, seen: set<seq<int>>)
    decreases e, 0
  {
    e.Entry? ==>
      && WellFormedHead(braces, e, seen)
      && WellFormed(e.value)
      && WellFormedEntries(braces, e.rest, Seen(braces, e.key, seen))
  }

  lemma Drop(a: string, b: string)
    ensures (a + b)[|a|..] == b && (a + b)[..|a|] == a
  {
  }

  lemma {:induction false} BlankIs(s: string, t: string)
    requires Spaces(s) && (t == "" || !IsSpace(t[0]))
    ensures Blank(s + t) == |s|
  {
    if s == "" {
      assert s + t == t;
    } else {
      BlankIs(s[1..], t);
      assert (s + t)[1..] == s[1..] + t;
    }
  }

  lemma TokenStart(text: string)
    requires IsToken(text)
    ensures text != "" && !IsSpace(text[0]) && text[0] !in "{}[],:"
  {
    hide LexString, NumberScalar;
  }

  lemma NodeStart(node: Node)
    requires WellFormed(node)
    ensures Print(node) != "" && !IsSpace(Print(node)[0]) && Print(node)[0] !in "}],:"
  {
    hide IsToken;
    if node.Token? { TokenStart(node.text); }
  }

  lemma HeadStart(braces: bool, e: Entries, seen: set<seq<int>>)
    requires e.Entry? && WellFormedHead(braces, e, seen) && WellFormed(e.value)
    ensures PrintEntry(braces, e) != "" && !IsSpace(PrintEntry(braces, e)[0])
    ensures PrintEntry(braces, e)[0] != Close(braces)
  {
    hide WellFormed, ScanString, DecodeBody, Print;
    NodeStart(e.value);
    if !braces {
      assert PrintEntry(braces, e) == Print(e.value) + e.after;
    }
  }

  /** Entries start with a visible character, and a first entry is not taken for the end. */
  lemma EntriesStart(braces: bool, e: Entries, seen: set<seq<int>>)
    requires WellFormedEntries(braces, e, seen)
    ensures !IsSpace(PrintEntries(braces, e)[0])
    ensures e.Entry? ==> PrintEntries(braces, e)[0] != Close(braces)
  {
    hide WellFormedHead, WellFormed, PrintEntry, PrintRest;
    if e.Entry? { HeadStart(braces, e, seen); }
  }

  lemma HeadComplete(braces: bool, e: Entries, seen: set<seq<int>>, t: string)
    requires e.Entry? && WellFormedHead(braces, e, seen)
    ensures ParseHead(braces, Head(braces, e) + t, seen) == Some(HeadText(e.key, e.gap, |Head(braces, e)|))
  {
    hide LexString;
    if braces {
      var s := Head(braces, e) + t;
      var u := e.gap + ([':'] + t);
      assert s == e.key + u;
      LexStringLocal(e.key, u);
      assert e.key[..|e.key|] == e.key;
      BlankIs(e.gap, [':'] + t);
      Drop(e.key, u);
      Drop(e.gap, [':'] + t);
      assert s[|e.key|..|e.key| + |e.gap|] == u[..|e.gap|];
      assert s[|e.key| + |e.gap|] == u[|e.gap|] == ':';
    }
  }

  /** Where four texts in a row start. */
  lemma Layout(p: string, q: string, x: string, r: string, u: string)
    ensures var s := p + (q + (x + (r + u)));
      var (h, k) := (|p| + |q|, |p| + |q| + |x|);
      && s == p + (q + (x + r)) + u
      && s[|p|..] == q + (x + (r + u)) && s[|p|..h] == q
      && s[h..] == x + (r + u)
      && s[k..] == r + u && s[k..k + |r|] == r
  {
    var s := p + (q + (x + (r + u)));
    Drop(p, q + (x + (r + u)));
    Drop(p + q, x + (r + u));
    assert s == (p + q) + (x + (r + u));
    Drop(p + q + x, r + u);
    assert s == (p + q + x) + (r + u);
  }

  lemma EntryFrom(braces: bool, s: string, seen: set<seq<int>>, head: HeadText, b: nat, v: Node, n: nat, a: nat)
    requires ParseHead(braces, s, seen) == Some(head)
    requires head.size + b + n + a < |s|
    requires Blank(s[head.size..]) == b && ParseNode(s[head.size + b..]) == Some((v, n))
    requires Blank(s[head.size + b + n..]) == a
    ensures var (h, k) := (head.size, head.size + b + n);
      ParseEntry(braces, s, seen) == Some((Entry(head.key, head.gap, s[h..h + b], v, s[k..k + a], "", End), k + a))
  {
    hide ParseHead, Blank, ParseNode;
  }

  lemma EntryAssembled(braces: bool, e: Entries, seen: set<seq<int>>, u: string)
    requires e.Entry? && u != ""
    requires var (s3, h) := (e.after + u, |Head(braces, e)|);
      var s1 := e.before + (Print(e.value) + s3);
      && ParseHead(braces, Head(braces, e) + s1, seen) == Some(HeadText(e.key, e.gap, h))
      && Blank(s1) == |e.before|
      && ParseNode(Print(e.value) + s3) == Some((e.value, |Print(e.value)|))
      && Blank(s3) == |e.after|
    ensures ParseEntry(braces, PrintEntry(braces, e) + u, seen) == Some((e.(next := "", rest := End), |PrintEntry(braces, e)|))
  {
    hide Blank, ParseHead, ParseNode, ParseEntry, Print, Head;
    var h := |Head(braces, e)|;
    Layout(Head(braces, e), e.before, Print(e.value), e.after, u);
    EntryFrom(braces, PrintEntry(braces, e) + u, seen, HeadText(e.key, e.gap, h), |e.before|, e.value, |Print(e.value)|, |e.after|);
  }

  /** What an entry reads as in front of a visible delimiter. */
  lemma {:induction false} ParsePrintEntry(braces: bool, e: Entries, seen: set<seq<int>>, u: string)
    requires e.Entry? && WellFormedHead(braces, e, seen) && WellFormed(e.value)
    requires u != "" && (u[0] == ',' || u[0] == Close(braces))
    ensures ParseEntry(braces, PrintEntry(braces, e) + u, seen) == Some((e.(next := "", rest := End), |PrintEntry(braces, e)|))
    decreases e, 0
  {
    hide Blank, ParseHead, ParseNode, ParseEntry, Print, PrintEntry, WellFormed, IsKey, LexString, KeyCodes, Head;
    var s3 := e.after + u;
    assert s3[0] == if e.after == "" then u[0] else e.after[0];
    var s2 := Print(e.value) + s3;
    NodeStart(e.value);
    assert s2[0] == Print(e.value)[0];
    HeadComplete(braces, e, seen, e.before + s2);
    BlankIs(e.before, s2);
    BlankIs(e.after, u);
    ParsePrint(e.value, s3);
    EntryAssembled(braces, e, seen, u);
  }

  /** The printed form of a well-formed tree parses to that tree. */
  lemma {:induction false} ParsePrint(node: Node, t: string)
    requires WellFormed(node) && Delimited(t)
    ensures ParseNode(Print(node) + t) == Some((node, |Print(node)|))
    decreases node, 0
  {
    if node.Token? {
      ParsePrintToken(node.text, t);
    } else {
      hide Blank, ParseEntries, ParseNode, WellFormedEntries, PrintEntries;
      if node.entries.Entry? { ParsePrintEntries(node.braces, node.entries, {}, t); }
      ParsePrintBranch(node.braces, node.pad, node.entries, t);
    }
  }

  lemma ParsePrintToken(text: string, t: string)
    requires IsToken(text) && Delimited(t)
    ensures ParseNode(text + t) == Some((Token(text), |text|))
  {
    hide Lex;
    assert text[..|text|] == text;
    LexLocal(text, t);
    TokenStart(text);
    assert (text + t)[..|text|] == text;
  }

  lemma EntriesEnd(braces: bool, entries: Entries)
    ensures entries.End? ==> PrintEntries(braces, entries) == [Close(braces)]
  {
  }

  lemma ParsePrintBranch(braces: bool, pad: string, entries: Entries, t: string)
    requires Spaces(pad) && WellFormedEntries(braces, entries, {})
    requires var u := PrintEntries(braces, entries) + t;
      entries.Entry? ==> ParseEntries(braces, u, {}) == Some((entries, |PrintEntries(braces, entries)|))
    ensures var node := Branch(braces, pad, entries);
      ParseNode(Print(node) + t) == Some((node, |Print(node)|))
  {
    hide Lex, Blank, ParseEntries, WellFormedEntries, PrintEntries, Spaces, IsSpace;
    var e := PrintEntries(braces, entries);
    Layout([Open(braces)], pad, "", e, t);
    assert "" + (e + t) == e + t && "" + e == e;
    EntriesStart(braces, entries, {});
    BlankIs(pad, e + t);
    EntriesEnd(braces, entries);
  }

  lemma LastFrom(braces: bool, s: string, seen: set<seq<int>>, e: Entries, m: nat)
    requires e.Entry? && m < |s| && ParseEntry(braces, s, seen) == Some((e, m)) && s[m] == Close(braces)
    ensures ParseEntries(braces, s, seen) == Some((e, m + 1))
  {
    hide ParseEntry, ParseMore;
  }

  lemma MoreFrom(braces: bool, s: string, seen: set<seq<int>>, e: Entries, m: nat, next: string, rest: Entries, z: nat)
    requires e.Entry? && m < |s| && s[m] == ',' && ParseEntry(braces, s, seen) == Some((e, m))
    requires ParseMore(braces, s[m + 1..], Seen(braces, e.key, seen)) == Some((next, rest, z))
    ensures ParseEntries(braces, s, seen) == Some((e.(next := next, rest := rest), m + 1 + z))
  {
    hide ParseEntry, ParseMore, Seen;
  }

  lemma {:induction false} ParsePrintEntries(braces: bool, e: Entries, seen: set<seq<int>>, t: string)
    requires e.Entry? && WellFormedEntries(braces, e, seen)
    ensures ParseEntries(braces, PrintEntries(braces, e) + t, seen) == Some((e, |PrintEntries(braces, e)|))
    decreases e, 1
  {
    hide ParseEntry, ParseEntries, ParseMore, PrintEntry, WellFormed, KeyCodes, Seen;
    var one := e.(next := "", rest := End);
    var m := |PrintEntry(braces, e)|;
    var u := PrintRest(braces, e.next, e.rest) + t;
    var s := PrintEntry(braces, e) + u;
    assert s == PrintEntries(braces, e) + t;
    ParsePrintEntry(braces, e, seen, u);
    assert s[m] == u[0];
    if e.rest.End? {
      LastFrom(braces, s, seen, one, m);
    } else {
      ParsePrintMore(braces, e.next, e.rest, Seen(braces, e.key, seen), t);
      assert s[m + 1..] == e.next + PrintEntries(braces, e.rest) + t;
      MoreFrom(braces, s, seen, one, m, e.next, e.rest, |e.next| + |PrintEntries(braces, e.rest)|);
    }
  }

  lemma {:induction false} ParsePrintMore(braces: bool, next: string, rest: Entries, seen: set<seq<int>>, t: string)
    requires rest.Entry? && Spaces(next) && WellFormedEntries(braces, rest, seen)
    ensures ParseMore(braces, next + PrintEntries(braces, rest) + t, seen)
      == Some((next, rest, |next| + |PrintEntries(braces, rest)|))
    decreases rest, 2
  {
    hide ParseEntries, PrintEntries, WellFormedEntries, Blank;
    var v := PrintEntries(braces, rest) + t;
    EntriesStart(braces, rest, seen);
    BlankIs(next, v);
    Drop(next, v);
    assert next + PrintEntries(braces, rest) + t == next + v;
    ParsePrintEntries(braces, rest, seen, t);
  }

  // ---------------------------------------------------------------- parsing is sound

  lemma HeadSound(braces: bool, s: string, seen: set<seq<int>>)
    requires ParseHead(braces, s, seen).Some?
    ensures var h := ParseHead(braces, s, seen).value;
      && Spaces(h.gap)
      && (if braces then IsKey(h.key) && KeyCodes(h.key) !in seen && s[..h.size] == h.key + (h.gap + ":") else h == HeadText("", "", 0))
  {
    hide LexString;
    if braces {
      LexStringLocal(s, "");
      var n := LexString(s).value.1;
      assert s[..n] + "" == s[..n];
      var g := Blank(s[n..]);
      assert s[n..n + g] == s[n..][..g];
      assert s[..n + g + 1] == s[..n] + (s[n..n + g] + [s[n + g]]);
    }
  }

  /** What a parse accepts is well formed and prints as exactly the text it consumed. */
  lemma {:induction false} PrintParse(s: string)
    requires ParseNode(s).Some?
    ensures WellFormed(ParseNode(s).value.0)
    ensures Print(ParseNode(s).value.0) == s[..ParseNode(s).value.1]
    decreases |s|, 0
  {
    hide Lex, Blank, ParseEntries, WellFormedEntries, PrintEntries;
    if s != "" && (s[0] == '{' || s[0] == '[') {
      var braces := s[0] == '{';
      var pad := Blank(s[1..]);
      var inside := s[1 + pad..];
      Cut(s, 1, pad);
      if inside != "" && inside[0] == Close(braces) {
        EmptySound(braces, s, pad);
      } else {
        PrintParseEntries(braces, inside, {});
        BranchSound(braces, s, pad);
      }
    } else {
      LexLocal(s, "");
      var n := Lex(s).value.1;
      assert s[..n] + "" == s[..n];
    }
  }

  lemma EmptySound(braces: bool, s: string, pad: nat)
    requires pad + 1 < |s| && s[0] == Open(braces) && s[1 + pad] == Close(braces) && Spaces(s[1..1 + pad])
    ensures WellFormed(Branch(braces, s[1..1 + pad], End))
    ensures Print(Branch(braces, s[1..1 + pad], End)) == s[..pad + 2]
  {
    assert s[..pad + 2] == [s[0]] + (s[1..1 + pad] + [s[1 + pad]]);
  }

  lemma BranchSound(braces: bool, s: string, pad: nat)
    requires 1 + pad <= |s| && s[0] == Open(braces) && Spaces(s[1..1 + pad])
    requires ParseEntries(braces, s[1 + pad..], {}).Some?
    requires var (e, n) := ParseEntries(braces, s[1 + pad..], {}).value;
      WellFormedEntries(braces, e, {}) && PrintEntries(braces, e) == s[1 + pad..][..n]
    ensures var (e, n) := ParseEntries(braces, s[1 + pad..], {}).value;
      var node := Branch(braces, s[1..1 + pad], e);
      WellFormed(node) && Print(node) == s[..1 + pad + n]
  {
    hide ParseEntries, WellFormedEntries, PrintEntries;
    var n := ParseEntries(braces, s[1 + pad..], {}).value.1;
    Cut(s, 1 + pad, n);
    assert s[..1 + pad + n] == [s[0]] + (s[1..1 + pad] + s[1 + pad..1 + pad + n]);
  }

  lemma {:induction false} PrintParseEntry(braces: bool, s: string, seen: set<seq<int>>)
    requires ParseEntry(braces, s, seen).Some?
    requires !braces && s != "" ==> !IsSpace(s[0])
    ensures var (e, m) := ParseEntry(braces, s, seen).value;
      && WellFormedHead(braces, e, seen) && WellFormed(e.value)
      && e.next == "" && s[..m] == PrintEntry(braces, e)
    decreases |s|, 1
  {
    hide ParseHead, Blank, ParseNode, WellFormed, Print, IsSpace, IsKey, KeyCodes, PrintEntry, WellFormedHead, Lex, LexString;
    var HeadText(key, gap, h) := ParseHead(braces, s, seen).value;
    var b := Blank(s[h..]);
    var (v, n) := ParseNode(s[h + b..]).value;
    PrintParse(s[h + b..]);
    EntrySound(braces, s, seen, h, b, v, n);
  }

  lemma FourParts(s: string, h: nat, i: nat, k: nat, m: nat)
    requires h <= i <= k <= m <= |s|
    ensures s[..m] == s[..h] + (s[h..i] + (s[i..k] + s[k..m]))
  {
  }

  lemma ElementStart(s: string)
    requires s != "" ==> !IsSpace(s[0])
    ensures s[0..] == s && Blank(s) == 0
  {
  }

  lemma EntrySound(braces: bool, s: string, seen: set<seq<int>>, h: nat, b: nat, v: Node, n: nat)
    requires ParseHead(braces, s, seen).Some? && h == ParseHead(braces, s, seen).value.size
    requires !braces && s != "" ==> !IsSpace(s[0])
    requires b == Blank(s[h..]) && h + b + n <= |s| && WellFormed(v) && Print(v) == s[h + b..][..n]
    ensures var HeadText(key, gap, _) := ParseHead(braces, s, seen).value;
      var k := h + b + n;
      var a := Blank(s[k..]);
      var e := Entry(key, gap, s[h..h + b], v, s[k..k + a], "", End);
      WellFormedHead(braces, e, seen) && s[..k + a] == PrintEntry(braces, e)
  {
    hide ParseHead, Blank, IsKey, KeyCodes, WellFormed, Print, IsSpace, Head, PrintEntry;
    HeadSound(braces, s, seen);
    var k := h + b + n;
    var a := Blank(s[k..]);
    Cut(s, h, b);
    Cut(s, k, a);
    if !braces {
      ElementStart(s);
    }
    EntryText(braces, s, h, b, v, n, a, ParseHead(braces, s, seen).value);
  }

  lemma EntryText(braces: bool, s: string, h: nat, b: nat, v: Node, n: nat, a: nat, head: HeadText)
    requires h + b + n + a <= |s| && Print(v) == s[h + b..][..n]
    requires s[..h] == if braces then head.key + (head.gap + ":") else ""
    ensures var k := h + b + n;
      s[..k + a] == PrintEntry(braces, Entry(head.key, head.gap, s[h..h + b], v, s[k..k + a], "", End))
  {
    hide Print;
    var k := h + b + n;
    Cut(s, h + b, n);
    assert Print(v) == s[h + b..k];
    assert Head(braces, Entry(head.key, head.gap, s[h..h + b], v, s[k..k + a], "", End)) == s[..h];
    hide Head;
    FourParts(s, h, h + b, k, k + a);
  }

  lemma Cut(s: string, h: nat, b: nat)
    requires h + b <= |s|
    ensures s[h..][..b] == s[h..h + b]
  {
  }

  lemma {:induction false} PrintParseEntries(braces: bool, s: string, seen: set<seq<int>>)
    requires ParseEntries(braces, s, seen).Some?
    requires !braces && s != "" ==> !IsSpace(s[0])
    ensures WellFormedEntries(braces, ParseEntries(braces, s, seen).value.0, seen)
    ensures PrintEntries(braces, ParseEntries(braces, s, seen).value.0) == s[..ParseEntries(braces, s, seen).value.1]
    decreases |s|, 2
  {
    hide ParseEntry, ParseMore, PrintEntry, WellFormed, WellFormedHead, Seen;
    PrintParseEntry(braces, s, seen);
    var (e, m) := ParseEntry(braces, s, seen).value;
    if s[m] == Close(braces) {
      assert s[..m + 1] == s[..m] + [Close(braces)];
    } else {
      PrintParseMore(braces, s[m + 1..], Seen(braces, e.key, seen));
      JoinSound(braces, s, seen, e, m);
    }
  }

  lemma JoinSound(braces: bool, s: string, seen: set<seq<int>>, e: Entries, m: nat)
    requires m < |s| && e.Entry? && e.rest.End? && s[m] == ','
    requires WellFormedHead(braces, e, seen) && WellFormed(e.value) && s[..m] == PrintEntry(braces, e)
    requires ParseMore(braces, s[m + 1..], Seen(braces, e.key, seen)).Some?
    requires var (next, rest, z) := ParseMore(braces, s[m + 1..], Seen(braces, e.key, seen)).value;
      && Spaces(next) && WellFormedEntries(braces, rest, Seen(braces, e.key, seen))
      && next + PrintEntries(braces, rest) == s[m + 1..][..z]
    ensures var (next, rest, z) := ParseMore(braces, s[m + 1..], Seen(braces, e.key, seen)).value;
      var whole := e.(next := next, rest := rest);
      WellFormedEntries(braces, whole, seen) && PrintEntries(braces, whole) == s[..m + 1 + z]
  {
    hide ParseMore, WellFormed, IsKey, KeyCodes, Seen, Print;
    var (next, rest, z) := ParseMore(braces, s[m + 1..], Seen(braces, e.key, seen)).value;
    var whole := e.(next := next, rest := rest);
    assert PrintEntry(braces, whole) == PrintEntry(braces, e);
    assert s[..m + 1 + z] == s[..m] + ([s[m]] + s[m + 1..][..z]);
  }

  lemma {:induction false} PrintParseMore(braces: bool, s: string, seen: set<seq<int>>)
    requires ParseMore(braces, s, seen).Some?
    ensures var (next, rest, z) := ParseMore(braces, s, seen).value;
      && Spaces(next) && WellFormedEntries(braces, rest, seen)
      && next + PrintEntries(braces, rest) == s[..z]
    decreases |s|, 3
  {
    hide ParseEntries, PrintEntries, WellFormedEntries, Blank;
    var n := Blank(s);
    PrintParseEntries(braces, s[n..], seen);
    var z := ParseEntries(braces, s[n..], seen).value.1;
    assert s[..n + z] == s[..n] + s[n..][..z];
  }
}
