/** The JSON version editor of `scripts/version_plan.py`: it reads a document with its scalar
    spans and splices the selected ones, and the edited text reads as the same document with
    only those fields replaced. */
module JsonEdit {
  import opened Text
  import opened JsonLexer
  import opened JsonDocument
  import opened JsonTree
  import opened JsonReader
  import opened VersionPlan

  // ---------------------------------------------------------------- documents

  /** The one value of a document and the white space before it. */
  function ParseDocument(text: string): (r: Option<(nat, Node)>)
    ensures r.Some? ==> r.value.0 <= |text|
  {
    var b := Blank(text);
    var p := ParseNode(text[b..]);
    if p.None? then None
    else
      var n := b + p.value.1;
      if n + Blank(text[n..]) == |text| then Some((b, p.value.0)) else None
  }

  lemma AllBlank(s: string)
    requires Spaces(s)
    ensures Blank(s) == |s|
  {
    BlankIs(s, "");
    assert s + "" == s;
  }

  /** Documents are exactly the printed trees with white space around them. */
  lemma DocumentPrints(text: string)
    requires ParseDocument(text).Some?
    ensures var (b, node) := ParseDocument(text).value;
      var n := b + |Print(node)|;
      && WellFormed(node) && n <= |text| && Spaces(text[..b]) && Spaces(text[n..])
      && text == text[..b] + Print(node) + text[n..]
  {
    hide Blank, ParseNode, WellFormed, Print;
    var b := Blank(text);
    PrintParse(text[b..]);
    var n := b + ParseNode(text[b..]).value.1;
    Cut(text, b, n - b);
    assert text[n..] == text[n..][..|text| - n];
  }

  lemma PrintIsDocument(lead: string, node: Node, trail: string)
    requires WellFormed(node) && Spaces(lead) && Spaces(trail)
    ensures ParseDocument(lead + Print(node) + trail) == Some((|lead|, node))
  {
    hide Blank, ParseNode, WellFormed, Print;
    var text := lead + Print(node) + trail;
    var rest := Print(node) + trail;
    assert text == lead + rest;
    NodeStart(node);
    BlankIs(lead, rest);
    Drop(lead, rest);
    ParsePrint(node, trail);
    Drop(lead + Print(node), trail);
    AllBlank(trail);
  }

  // ---------------------------------------------------------------- selection

  datatype Selector =
    | NpmLock(name: string)
    | JsonField(field: seq<string>, package: Option<string>)

  function Names(field: seq<string>): (p: Path) {
    if field == [] then [] else [Name(Codes(field[0]))] + Names(field[1..])
  }

  const NAME := Name(Codes("name"))
  const PACKAGES := Name(Codes("packages"))
  const ROOT := Name(Codes(""))
  const VERSION := Name(Codes("version"))

  predicate Named(v: Value, package: string) {
    v.Dict? && Get(v, [NAME]) == Some(Leaf(Str(Codes(package))))
  }

  /** The fields an editor may change once the document proves to be the declared package's. */
  function Fields(v: Value, sel: Selector): (r: Option<seq<Path>>) {
    match sel
    case JsonField(field, package) =>
      if package.Some? && !Named(v, package.value) then None else Some([Names(field)])
    case NpmLock(package) =>
      if !Named(v, package) then None
      else if Get(v, [PACKAGES]).None? then Some([[VERSION]])
      else
        var own := Get(v, [PACKAGES, ROOT]);
        if own.None? || !own.value.Dict? then None
        else if Get(v, [PACKAGES, ROOT, NAME]).Some? && Get(v, [PACKAGES, ROOT, NAME]) != Some(Leaf(Str(Codes(package)))) then None
        else Some([[VERSION], [PACKAGES, ROOT, VERSION]])
  }

  function ValueText(value: Field): (s: string) {
    match value
    case TextField(s) => s
    case NumberField(n) => DumpsInt(n)
  }

  /** `_scalar`: what an owned field has to hold, refused for a number written as text. */
  function Wanted(value: Field, was: Value): (r: Option<Scalar>)
    ensures r.Some? ==> r.value.Str? || r.value.Int?
  {
    if was.Leaf? && was.scalar.Str? then Some(Str(Codes(ValueText(value))))
    else if was.Leaf? && was.scalar.Int? && value.NumberField? then Some(Int(value.n))
    else None
  }

  /** `json.dumps` of what the field has to hold. */
  function TokenFor(value: Field, was: Value): (token: string) {
    if was.Leaf? && was.scalar.Int? && value.NumberField? then DumpsInt(value.n) else DumpsText(ValueText(value))
  }

  // ---------------------------------------------------------------- edits

  datatype Change = Change(path: Path, start: nat, end: nat, token: string)

  function ChangeFor(spans: map<Path, Span>, field: Path, value: Field, was: Value): (c: Change)
    requires field in spans
  {
    Change(field, spans[field].0, spans[field].1, TokenFor(value, was))
  }

  /** The edits the fields need and the values they hold, field by field. */
  function Changes(v: Value, spans: map<Path, Span>, fields: seq<Path>, value: Field): (r: Option<(seq<Change>, seq<Value>)>) {
    if fields == [] then Some(([], []))
    else
      var k := |fields| - 1;
      var before := Changes(v, spans, fields[..k], value);
      var was := Get(v, fields[k]);
      if before.None? || was.None? || fields[k] !in spans || Wanted(value, was.value).None? then None
      else
        var (cs, previous) := before.value;
        Some((
          if was.value == Leaf(Wanted(value, was.value).value) then cs else cs + [ChangeFor(spans, fields[k], value, was.value)],
          previous + [was.value]))
  }

  function Insert(c: Change, cs: seq<Change>): (r: seq<Change>) {
    if cs == [] || cs[0].start <= c.start then [c] + cs else [cs[0]] + Insert(c, cs[1..])
  }

  /** `sorted(edits, reverse=True)`; spans of different fields never start together. */
  function Descending(cs: seq<Change>): (r: seq<Change>) {
    if cs == [] then [] else Insert(cs[0], Descending(cs[1..]))
  }

  /** `text[:start] + token + text[end:]`. */
  function Splice(text: string, c: Change): (r: string) {
    if c.start <= c.end <= |text| then Spliced(text, c.start, c.end, c.token) else text
  }

  function SpliceAll(text: string, cs: seq<Change>): (r: string)
    decreases |cs|
  {
    if cs == [] then text else SpliceAll(Splice(text, cs[0]), cs[1..])
  }

  /** The edited text and the previous values, or a refusal. */
  function Edited(text: string, sel: Selector, value: Field): (r: Option<(string, seq<Value>)>) {
    var d := ParseDocument(text);
    if d.None? then None
    else
      var (b, node) := d.value;
      var fields := Fields(ValueOf(node), sel);
      if fields.None? then None
      else
        var changes := Changes(ValueOf(node), AddSpans(node, b, [], map[]), fields.value, value);
        if changes.None? then None
        else Some((SpliceAll(text, Descending(changes.value.0)), changes.value.1))
  }

  method ReadDocument(raw: string) returns (r: Option<(Value, map<Path, Span>)>)
    ensures r.Some? <==> ParseDocument(raw).Some?
    ensures r.Some? ==>
      var (b, node) := ParseDocument(raw).value;
      r.value == (ValueOf(node), AddSpans(node, b, [], map[]))
  {
    hide Blank, ParseNode, AddSpans, ValueOf;
    var document := new JsonReader(raw);
    assert raw[0..] == raw;
    var data := document.Parse(0, []);
    if data.None? {
      return None;
    }
    var end := document.Whitespace(data.value.end);
    if end != |raw| {
      return None;
    }
    return Some((data.value.value, document.spans));
  }

  method EditJson(raw: string, sel: Selector, value: Field) returns (r: Option<(string, seq<Value>)>)
    ensures r == Edited(raw, sel, value)
  {
    hide ParseDocument, Fields, AddSpans, ValueOf, Descending, Splice, TokenFor, Get;
    var d := ReadDocument(raw);
    if d.None? {
      return None;
    }
    var (data, spans) := d.value;
    var fields := Fields(data, sel);
    if fields.None? {
      return None;
    }
    var edits, previous: seq<Value> := [], [];
    for k := 0 to |fields.value|
      invariant Changes(data, spans, fields.value[..k], value) == Some((edits, previous))
    {
      var field := fields.value[k];
      var was := Get(data, field);
      if was.None? || field !in spans || Wanted(value, was.value).None? {
        Refused(data, spans, fields.value, value, k);
        return None;
      }
      ChangesStep(data, spans, fields.value, value, k);
      if was.value != Leaf(Wanted(value, was.value).value) {
        edits := edits + [ChangeFor(spans, field, value, was.value)];
      }
      previous := previous + [was.value];
    }
    assert fields.value[..|fields.value|] == fields.value;
    var text, sorted := raw, Descending(edits);
    for k := 0 to |sorted|
      invariant SpliceAll(text, sorted[k..]) == SpliceAll(raw, sorted)
    {
      text := Splice(text, sorted[k]);
      assert sorted[k..][1..] == sorted[k + 1..];
    }
    return Some((text, previous));
  }

  lemma ChangesStep(v: Value, spans: map<Path, Span>, fields: seq<Path>, value: Field, k: nat)
    requires k < |fields| && Changes(v, spans, fields[..k], value).Some?
    requires Get(v, fields[k]).Some? && fields[k] in spans && Wanted(value, Get(v, fields[k]).value).Some?
    ensures var was := Get(v, fields[k]).value;
      var (cs, previous) := Changes(v, spans, fields[..k], value).value;
      Changes(v, spans, fields[..k + 1], value) == Some((
        if was == Leaf(Wanted(value, was).value) then cs else cs + [ChangeFor(spans, fields[k], value, was)],
        previous + [was]))
  {
    hide Get, Wanted, ChangeFor;
    assert fields[..k + 1][..k] == fields[..k];
  }

  lemma {:induction false} Refused(v: Value, spans: map<Path, Span>, fields: seq<Path>, value: Field, k: nat)
    requires k < |fields|
    requires var was := Get(v, fields[k]); was.None? || fields[k] !in spans || Wanted(value, was.value).None?
    ensures Changes(v, spans, fields, value).None?
  {
    hide Get, Wanted, TokenFor;
    if k < |fields| - 1 {
      Refused(v, spans, fields[..|fields| - 1], value, k);
    }
  }

  // ---------------------------------------------------------------- what an edit means

  /** The tree after the changes, applied in order. */
  function ReplaceAll(node: Node, cs: seq<Change>): (r: Node)
    decreases |cs|
  {
    if cs == [] then node else ReplaceAll(Replace(node, cs[0].path, cs[0].token), cs[1..])
  }

  function PutAll(v: Value, cs: seq<Change>): (r: Value)
    decreases |cs|
  {
    if cs == [] then v else PutAll(Put(v, cs[0].path, TokenValue(cs[0].token)), cs[1..])
  }

  /** Each change lies on a scalar of the document, which starts at `b`. */
  ghost predicate OnScalars(node: Node, b: nat, cs: seq<Change>) {
    forall c | c in cs ::
      && IsToken(c.token) && IsLeaf(At(node, c.path))
      && c.start == b + SpanOf(At(node, c.path)).0 && c.end == b + SpanOf(At(node, c.path)).1
  }

  ghost predicate Sorted(cs: seq<Change>)
    decreases |cs|
  {
    cs == [] || ((forall c | c in cs[1..] :: c.start <= cs[0].start) && Sorted(cs[1..]))
  }

  ghost predicate Different(cs: seq<Change>)
    decreases |cs|
  {
    cs == [] || ((forall c | c in cs[1..] :: c.path != cs[0].path) && Different(cs[1..]))
  }

  lemma OneSplice(lead: string, node: Node, trail: string, c: Change)
    requires OnScalars(node, |lead|, [c])
    ensures Splice(lead + Print(node) + trail, c) == lead + Print(Replace(node, c.path, c.token)) + trail
  {
    hide At, Print, Replace, IsToken, Splices, Spliced;
    assert c in [c];
    var (leaf, a) := At(node, c.path).value;
    var text := lead + Print(node) + trail;
    var z := lead + Print(Replace(node, c.path, c.token)) + trail;
    ReplaceSplices(node, c.path, c.token);
    SplicesInside(lead, Print(node), trail, a, leaf.text, c.token, Print(Replace(node, c.path, c.token)));
    SpliceIs(text, c, leaf.text, z);
  }

  lemma SpliceIs(text: string, c: Change, was: string, z: string)
    requires Splices(text, c.start, was, c.token, z) && c.end == c.start + |was|
    ensures Splice(text, c) == z
  {
  }

  lemma OthersStay(node: Node, b: nat, cs: seq<Change>)
    requires WellFormed(node) && cs != [] && OnScalars(node, b, cs) && Sorted(cs) && Different(cs)
    ensures OnScalars(Replace(node, cs[0].path, cs[0].token), b, cs[1..])
  {
    hide At, Print, Replace, IsToken;
    var first := cs[0];
    forall c | c in cs[1..]
      ensures At(Replace(node, first.path, first.token), c.path) == At(node, c.path)
    {
      Apart(node, first.path, c.path, first.token);
      Filled(node, first.path);
    }
  }

  /** A well-formed scalar is never empty. */
  lemma {:induction false} Filled(node: Node, p: Path)
    requires WellFormed(node) && IsLeaf(At(node, p))
    ensures SpanOf(At(node, p)).0 < SpanOf(At(node, p)).1
    decreases node, 0
  {
    if p == [] {
      hide Lex;
      TokenStart(node.text);
    } else {
      hide AtEntry, WellFormedEntries;
      FilledEntry(node.braces, node.entries, {}, p, 0);
    }
  }

  lemma {:induction false} FilledEntry(braces: bool, e: Entries, seen: set<seq<int>>, p: Path, k: nat)
    requires WellFormedEntries(braces, e, seen) && p != [] && IsLeaf(AtEntry(braces, e, p, k))
    ensures SpanOf(AtEntry(braces, e, p, k)).0 < SpanOf(AtEntry(braces, e, p, k)).1
    decreases e, 0
  {
    hide WellFormed, At, KeyCodes;
    if StepOf(braces, e, k) == p[0] {
      Filled(e.value, p[1..]);
    } else {
      FilledEntry(braces, e.rest, Seen(braces, e.key, seen), p, k + 1);
    }
  }

  /** Splicing in descending order is replacing the selected tokens of the tree. */
  lemma {:induction false} SpliceAllReplaces(lead: string, node: Node, trail: string, cs: seq<Change>)
    requires WellFormed(node) && OnScalars(node, |lead|, cs) && Sorted(cs) && Different(cs)
    ensures SpliceAll(lead + Print(node) + trail, cs) == lead + Print(ReplaceAll(node, cs)) + trail
    ensures WellFormed(ReplaceAll(node, cs)) && ValueOf(ReplaceAll(node, cs)) == PutAll(ValueOf(node), cs)
    decreases |cs|
  {
    hide At, Print, Replace, IsToken, WellFormed, ValueOf, Splice, TokenValue, Put;
    if cs != [] {
      var c := cs[0];
      var more := Replace(node, c.path, c.token);
      assert OnScalars(node, |lead|, [c]);
      OneSplice(lead, node, trail, c);
      OthersStay(node, |lead|, cs);
      ReplaceWellFormed(node, c.path, c.token);
      ReplaceValue(node, c.path, c.token);
      SpliceAllReplaces(lead, more, trail, cs[1..]);
    }
  }

  // ---------------------------------------------------------------- the changes of a document

  lemma {:induction false} InsertKeeps(c: Change, cs: seq<Change>)
    requires Sorted(cs) && Different(cs) && forall d | d in cs :: d.path != c.path
    ensures Sorted(Insert(c, cs)) && Different(Insert(c, cs))
    ensures forall d :: d in Insert(c, cs) <==> d in cs || d == c
  {
    if cs != [] && cs[0].start > c.start {
      InsertKeeps(c, cs[1..]);
      assert ([cs[0]] + Insert(c, cs[1..]))[1..] == Insert(c, cs[1..]);
    } else {
      assert ([c] + cs)[1..] == cs;
    }
  }

  lemma {:induction false} DescendingKeeps(cs: seq<Change>)
    requires Different(cs)
    ensures Sorted(Descending(cs)) && Different(Descending(cs))
    ensures forall d :: d in Descending(cs) <==> d in cs
  {
    if cs != [] {
      DescendingKeeps(cs[1..]);
      InsertKeeps(cs[0], Descending(cs[1..]));
    }
  }

  lemma {:induction false} AppendDifferent(cs: seq<Change>, c: Change)
    requires Different(cs) && forall d | d in cs :: d.path != c.path
    ensures Different(cs + [c])
  {
    if cs != [] {
      AppendDifferent(cs[1..], c);
      assert (cs + [c])[1..] == cs[1..] + [c];
    } else {
      assert cs + [c] == [c] && [c][1..] == [];
    }
  }

  ghost predicate Distinct(fields: seq<Path>) {
    forall i, j | 0 <= i < j < |fields| :: fields[i] != fields[j]
  }

  lemma TokenReads(value: Field, was: Value)
    requires Wanted(value, was).Some?
    ensures IsToken(TokenFor(value, was)) && TokenValue(TokenFor(value, was)) == Leaf(Wanted(value, was).value)
  {
    hide Lex, QuoteBody;
    var t := TokenFor(value, was);
    assert t + "" == t;
    if was.scalar.Int? {
      IntRoundTrip(value.n, "");
    } else {
      TextRoundTrip(ValueText(value), "");
    }
  }

  /** A field's old value, and the change made to it unless it already is what is wanted. */
  ghost predicate FieldHolds(v: Value, spans: map<Path, Span>, field: Path, value: Field, was: Value, cs: seq<Change>) {
    && Get(v, field) == Some(was) && Wanted(value, was).Some? && field in spans
    && (was != Leaf(Wanted(value, was).value) ==> ChangeFor(spans, field, value, was) in cs)
  }

  /** A change that a field needed and that lies on the field's scalar. */
  ghost predicate Needed(v: Value, c: Change, fields: seq<Path>, value: Field) {
    && c.path in fields
    && Get(v, c.path).Some? && Wanted(value, Get(v, c.path).value).Some?
    && Get(v, c.path).value != Leaf(Wanted(value, Get(v, c.path).value).value)
    && c.token == TokenFor(value, Get(v, c.path).value)
  }

  lemma NewChange(node: Node, b: nat, field: Path, value: Field, was: Value)
    requires WellFormed(node) && field in AddSpans(node, b, [], map[]) && Wanted(value, was).Some?
    ensures OnScalars(node, b, [ChangeFor(AddSpans(node, b, [], map[]), field, value, was)])
  {
    hide WellFormed, AddSpans, Wanted, TokenFor, At, Get, IsToken;
    SpanAt(node, b, field);
    TokenReads(value, was);
  }

  /** Every change a document needs lies on its field's scalar and writes what is wanted there. */
  lemma {:induction false} ChangesFit(node: Node, b: nat, fields: seq<Path>, value: Field)
    requires WellFormed(node) && Distinct(fields)
    requires Changes(ValueOf(node), AddSpans(node, b, [], map[]), fields, value).Some?
    ensures var (cs, previous) := Changes(ValueOf(node), AddSpans(node, b, [], map[]), fields, value).value;
      && OnScalars(node, b, cs) && Different(cs) && |previous| == |fields|
      && (forall c | c in cs :: Needed(ValueOf(node), c, fields, value))
      && (forall i | 0 <= i < |fields| ::
        FieldHolds(ValueOf(node), AddSpans(node, b, [], map[]), fields[i], value, previous[i], cs))
  {
    hide WellFormed, AddSpans, Wanted, TokenFor, At, Get, IsToken, ValueOf, OnScalars, Different;
    if fields != [] {
      var k := |fields| - 1;
      var (v, spans) := (ValueOf(node), AddSpans(node, b, [], map[]));
      ChangesFit(node, b, fields[..k], value);
      var (before, _) := Changes(v, spans, fields[..k], value).value;
      var (cs, previous) := Changes(v, spans, fields, value).value;
      var was := Get(v, fields[k]).value;
      NewChange(node, b, fields[k], value, was);
      forall c | c in before ensures Needed(v, c, fields, value) && c.path != fields[k] {
        assert Needed(v, c, fields[..k], value);
      }
      var c := ChangeFor(spans, fields[k], value, was);
      AppendDifferent(before, c);
      OnScalarsJoin(node, b, before, c);
      forall i | 0 <= i < |fields| ensures FieldHolds(v, spans, fields[i], value, previous[i], cs) {
        if i < k {
          assert FieldHolds(v, spans, fields[..k][i], value, previous[..k][i], before);
        }
      }
    } else {
      NoChanges(node, b);
    }
  }

  lemma OnScalarsJoin(node: Node, b: nat, cs: seq<Change>, c: Change)
    requires OnScalars(node, b, cs) && OnScalars(node, b, [c])
    ensures OnScalars(node, b, cs + [c])
  {
    assert c in [c];
  }

  lemma NoChanges(node: Node, b: nat)
    ensures OnScalars(node, b, []) && Different([])
  {
  }

  lemma SpanAt(node: Node, b: nat, p: Path)
    requires WellFormed(node)
    ensures p in AddSpans(node, b, [], map[]) <==> IsLeaf(At(node, p))
    ensures IsLeaf(At(node, p)) ==>
      AddSpans(node, b, [], map[])[p] == (b + SpanOf(At(node, p)).0, b + SpanOf(At(node, p)).1)
    ensures IsLeaf(At(node, p)) <==> Get(ValueOf(node), p).Some? && Get(ValueOf(node), p).value.Leaf?
  {
    hide WellFormed, AddSpans, At, Get;
    SpansAreThePlaces(node, b, [], map[], p);
    assert [] + p == p;
    GetIsAt(node, p);
  }

  // ---------------------------------------------------------------- the laws of an edit

  lemma {:induction false} LeavesApart(v: Value, p: Path, q: Path)
    requires Get(v, p).Some? && Get(v, p).value.Leaf? && Get(v, q).Some? && p != q
    ensures !(p <= q)
    decreases |p|
  {
    if p != [] && q != [] && p[0] == q[0] {
      assert p == [p[0]] + p[1..] && q == [q[0]] + q[1..];
      LeavesApart(if v.Dict? then v.members[p[0].codes] else v.items[p[0].i], p[1..], q[1..]);
      assert p[1..] <= q[1..] || !(p <= q);
    }
  }

  ghost predicate OnLeaves(v: Value, cs: seq<Change>) {
    forall c | c in cs :: Get(v, c.path).Some? && Get(v, c.path).value.Leaf?
  }

  predicate Beside(p: Path, q: Path) { !(p <= q) && !(q <= p) }

  lemma PutKeepsLeaves(v: Value, cs: seq<Change>)
    requires cs != [] && Different(cs) && OnLeaves(v, cs)
    ensures var w := Put(v, cs[0].path, TokenValue(cs[0].token));
      OnLeaves(w, cs[1..]) && Get(w, cs[0].path) == Some(TokenValue(cs[0].token))
    ensures forall c | c in cs[1..] :: Beside(c.path, cs[0].path)
  {
    hide Get, Put, TokenValue;
    var p := cs[0].path;
    GetPutSame(v, p, TokenValue(cs[0].token));
    forall c | c in cs[1..]
      ensures Beside(c.path, p) && Get(Put(v, p, TokenValue(cs[0].token)), c.path) == Get(v, c.path)
    {
      assert c in cs && cs[0] in cs;
      LeavesApart(v, p, c.path);
      LeavesApart(v, c.path, p);
      GetPutOther(v, p, TokenValue(cs[0].token), c.path);
    }
  }

  lemma {:induction false} PutAllBeside(v: Value, cs: seq<Change>, q: Path)
    requires Different(cs) && OnLeaves(v, cs) && forall c | c in cs :: Beside(c.path, q)
    ensures Get(PutAll(v, cs), q) == Get(v, q)
    decreases |cs|
  {
    hide Get, Put, TokenValue;
    if cs != [] {
      PutKeepsLeaves(v, cs);
      assert cs[0] in cs;
      GetPutOther(v, cs[0].path, TokenValue(cs[0].token), q);
      PutAllBeside(Put(v, cs[0].path, TokenValue(cs[0].token)), cs[1..], q);
    }
  }

  lemma {:induction false} PutAllOwn(v: Value, cs: seq<Change>, c: Change)
    requires Different(cs) && OnLeaves(v, cs) && c in cs
    ensures Get(PutAll(v, cs), c.path) == Some(TokenValue(c.token))
    decreases |cs|
  {
    hide Get, Put, TokenValue;
    PutKeepsLeaves(v, cs);
    var w := Put(v, cs[0].path, TokenValue(cs[0].token));
    if c == cs[0] {
      PutAllBeside(w, cs[1..], c.path);
    } else {
      PutAllOwn(w, cs[1..], c);
    }
  }

  /** A path that neither leads to a selected field nor through or past one. */
  predicate Untouched(q: Path, fields: seq<Path>) { forall f | f in fields :: Beside(f, q) }

  /** `w` is `v` with each field set to what is wanted there and nothing else changed. */
  ghost predicate OnlySets(v: Value, w: Value, fields: seq<Path>, value: Field) {
    && (forall f | f in fields ::
      Get(v, f).Some? && Wanted(value, Get(v, f).value).Some? && Get(w, f) == Some(Leaf(Wanted(value, Get(v, f).value).value)))
    && (forall q | Untouched(q, fields) :: Get(w, q) == Get(v, q))
  }

  lemma ChangesSet(v: Value, spans: map<Path, Span>, fields: seq<Path>, value: Field, previous: seq<Value>, cs: seq<Change>)
    requires Different(cs) && |previous| == |fields|
    requires forall c | c in cs :: Needed(v, c, fields, value)
    requires forall i | 0 <= i < |fields| :: FieldHolds(v, spans, fields[i], value, previous[i], cs)
    ensures OnlySets(v, PutAll(v, cs), fields, value)
  {
    hide Get, Put, TokenFor, TokenValue, PutAll, Different;
    assert OnLeaves(v, cs) by {
      forall c | c in cs ensures Get(v, c.path).Some? && Get(v, c.path).value.Leaf? {
        assert Needed(v, c, fields, value);
      }
    }
    var w := PutAll(v, cs);
    forall f | f in fields
      ensures Get(v, f).Some? && Wanted(value, Get(v, f).value).Some? && Get(w, f) == Some(Leaf(Wanted(value, Get(v, f).value).value))
    {
      var i :| 0 <= i < |fields| && fields[i] == f;
      assert FieldHolds(v, spans, f, value, previous[i], cs);
      var was := previous[i];
      TokenReads(value, was);
      if was != Leaf(Wanted(value, was).value) {
        PutAllOwn(v, cs, ChangeFor(spans, f, value, was));
      } else {
        forall c | c in cs ensures Beside(c.path, f) {
          assert Needed(v, c, fields, value);
          LeavesApart(v, c.path, f);
          LeavesApart(v, f, c.path);
        }
        PutAllBeside(v, cs, f);
      }
    }
    forall q | Untouched(q, fields) ensures Get(w, q) == Get(v, q) {
      forall c | c in cs ensures Beside(c.path, q) {
        assert Needed(v, c, fields, value);
      }
      PutAllBeside(v, cs, q);
    }
  }

  /** The tree of an edited document. */
  function EditedTree(text: string, sel: Selector, value: Field): (r: Node)
    requires Edited(text, sel, value).Some?
  {
    var (b, node) := ParseDocument(text).value;
    var fields := Fields(ValueOf(node), sel).value;
    ReplaceAll(node, Descending(Changes(ValueOf(node), AddSpans(node, b, [], map[]), fields, value).value.0))
  }

  function FieldsOf(text: string, sel: Selector): (r: seq<Path>) {
    var d := ParseDocument(text);
    if d.None? || Fields(ValueOf(d.value.1), sel).None? then [] else Fields(ValueOf(d.value.1), sel).value
  }

  function DataOf(text: string): (v: Value) {
    var d := ParseDocument(text);
    if d.None? then Leaf(Null) else ValueOf(d.value.1)
  }

  lemma FieldsDiffer(v: Value, sel: Selector)
    requires Fields(v, sel).Some?
    ensures Distinct(Fields(v, sel).value)
  {
    hide Get;
  }

  /** An edited text reads as the same document, white space, keys and order included, with
      exactly the selected fields set; the values they had are reported. */
  lemma EditReplaces(text: string, sel: Selector, value: Field)
    requires Edited(text, sel, value).Some?
    ensures var (b, node) := ParseDocument(text).value;
      var (out, previous) := Edited(text, sel, value).value;
      var fields := FieldsOf(text, sel);
      && ParseDocument(text).Some?
      && ParseDocument(out) == Some((b, EditedTree(text, sel, value)))
      && b + |Print(node)| <= |text|
      && out == text[..b] + Print(EditedTree(text, sel, value)) + text[b + |Print(node)|..]
      && OnlySets(DataOf(text), DataOf(out), fields, value)
      && |previous| == |fields| && forall i | 0 <= i < |fields| :: Get(DataOf(text), fields[i]) == Some(previous[i])
  {
    hide ParseDocument, Fields, AddSpans, ValueOf, Changes, WellFormed, Get, OnScalars, Different, Sorted, Print, OnlySets;
    var (b, node) := ParseDocument(text).value;
    var fields := Fields(ValueOf(node), sel).value;
    var spans := AddSpans(node, b, [], map[]);
    var (cs, previous) := Changes(ValueOf(node), spans, fields, value).value;
    DocumentPrints(text);
    FieldsDiffer(ValueOf(node), sel);
    ChangesFit(node, b, fields, value);
    DescendingKeeps(cs);
    var sorted := Descending(cs);
    SameScalars(node, b, cs, sorted);
    var (lead, trail) := (text[..b], text[b + |Print(node)|..]);
    SpliceAllReplaces(lead, node, trail, sorted);
    PrintIsDocument(lead, ReplaceAll(node, sorted), trail);
    forall i | 0 <= i < |fields| ensures FieldHolds(ValueOf(node), spans, fields[i], value, previous[i], sorted) {
      assert FieldHolds(ValueOf(node), spans, fields[i], value, previous[i], cs);
    }
    ChangesSet(ValueOf(node), spans, fields, value, previous, sorted);
  }

  lemma SameScalars(node: Node, b: nat, cs: seq<Change>, sorted: seq<Change>)
    requires OnScalars(node, b, cs) && forall d :: d in sorted <==> d in cs
    ensures OnScalars(node, b, sorted)
  {
    hide At;
  }

  /** A selector that sets the very name it checks. */
  predicate NamesItself(sel: Selector) {
    sel.JsonField? && sel.package.Some? && Names(sel.field) == [NAME]
  }

  lemma NamesDiffer()
    ensures NAME != VERSION && NAME != PACKAGES && NAME != ROOT && PACKAGES != VERSION && ROOT != VERSION
  {
    if Codes("name") == Codes("version") { CodesInjective("name", "version"); }
    if Codes("name") == Codes("packages") { CodesInjective("name", "packages"); }
    if Codes("packages") == Codes("version") { CodesInjective("packages", "version"); }
  }

  /** What holds a named field is an object, and so is reachable. */
  lemma {:induction false} HolderIsObject(v: Value, p: Path, step: Step)
    requires step.Name? && Get(v, p + [step]).Some?
    ensures Get(v, p).Some? && Get(v, p).value.Dict?
    decreases |p|
  {
    if p != [] {
      var q := p + [step];
      assert q[0] == p[0] && q[1..] == p[1..] + [step];
      HolderIsObject(if v.Dict? then v.members[p[0].codes] else v.items[p[0].i], p[1..], step);
    } else {
      assert p + [step] == [step];
    }
  }

  /** Setting the fields does not change which package owns them, unless a field is that name. */
  lemma FieldsStay(v: Value, w: Value, sel: Selector, value: Field)
    requires Fields(v, sel).Some? && OnlySets(v, w, Fields(v, sel).value, value)
    ensures Fields(w, sel) ==
      if NamesItself(sel) && ValueText(value) != sel.package.value then None else Fields(v, sel)
  {
    hide Wanted, Get, Codes;
    var fields := Fields(v, sel).value;
    NamesDiffer();
    if sel.NpmLock? {
      LockStays(v, w, sel.name, value);
    } else if sel.package.Some? {
      var f := Names(sel.field);
      assert f in fields;
      ManifestStays(v, w, f, sel.package.value, value);
    }
  }

  lemma ManifestStays(v: Value, w: Value, f: Path, package: string, value: Field)
    requires Named(v, package) && OnlySets(v, w, [f], value)
    ensures Named(w, package) <==> f != [NAME] || ValueText(value) == package
  {
    hide Get;
    assert f in [f];
    assert [] + [NAME] == [NAME];
    if f == [NAME] {
      HolderIsObject(w, [], NAME);
      assert Get(w, []) == Some(w) by { RootIsSelf(w); }
      var x := Wanted(value, Get(v, f).value).value;
      assert x == Str(Codes(ValueText(value)));
      if Codes(ValueText(value)) == Codes(package) { CodesInjective(ValueText(value), package); }
    } else {
      LeavesApart(v, [NAME], f);
      WantedIsLeaf(v, f, value);
      LeavesApart(v, f, [NAME]);
      assert Untouched([NAME], [f]);
      HolderIsObject(w, [], NAME);
      RootIsSelf(w);
    }
  }

  lemma RootIsSelf(v: Value)
    ensures Get(v, []) == Some(v)
  {
  }

  lemma WantedIsLeaf(v: Value, f: Path, value: Field)
    requires Get(v, f).Some? && Wanted(value, Get(v, f).value).Some?
    ensures Get(v, f).value.Leaf?
  {
    hide Get;
  }

  lemma StepsDiffer(p: Path, q: Path, k: nat)
    requires k < |p| && k < |q| && p[k] != q[k]
    ensures Beside(p, q)
  {
  }

  lemma LockStays(v: Value, w: Value, package: string, value: Field)
    requires Fields(v, NpmLock(package)).Some? && OnlySets(v, w, Fields(v, NpmLock(package)).value, value)
    ensures Fields(w, NpmLock(package)) == Fields(v, NpmLock(package))
  {
    hide Get, Wanted, Codes;
    var fields := Fields(v, NpmLock(package)).value;
    NamesDiffer();
    assert [] + [NAME] == [NAME];
    assert forall f | f in fields :: f == [VERSION] || f == [PACKAGES, ROOT, VERSION];
    StepsDiffer([VERSION], [NAME], 0);
    StepsDiffer([PACKAGES, ROOT, VERSION], [NAME], 0);
    assert Untouched([NAME], fields);
    HolderIsObject(w, [], NAME);
    RootIsSelf(w);
    if Get(v, [PACKAGES]).None? {
      StepsDiffer([VERSION], [PACKAGES], 0);
      assert Untouched([PACKAGES], fields);
    } else {
      var own: Path := [PACKAGES, ROOT];
      assert own + [VERSION] == [PACKAGES, ROOT, VERSION] && [PACKAGES] + [ROOT] == own;
      assert own + [VERSION] in fields;
      HolderIsObject(w, own, VERSION);
      HolderIsObject(w, [PACKAGES], ROOT);
      StepsDiffer([VERSION], own + [NAME], 0);
      StepsDiffer([PACKAGES, ROOT, VERSION], own + [NAME], 2);
      assert Untouched(own + [NAME], fields);
      assert own + [NAME] == [PACKAGES, ROOT, NAME];
    }
  }

  /** A field that already holds what the value asks for. */
  predicate Settled(v: Value, f: Path, value: Field) {
    var was := Get(v, f);
    was.Some? && was.value.Leaf? && Wanted(value, was.value) == Some(was.value.scalar)
  }

  lemma {:induction false} NothingToChange(node: Node, b: nat, fields: seq<Path>, value: Field)
    requires WellFormed(node)
    requires forall f | f in fields :: Settled(ValueOf(node), f, value)
    ensures Changes(ValueOf(node), AddSpans(node, b, [], map[]), fields, value).Some?
    ensures Changes(ValueOf(node), AddSpans(node, b, [], map[]), fields, value).value.0 == []
  {
    hide WellFormed, AddSpans, Wanted, TokenFor, At, Get, ValueOf;
    if fields != [] {
      var k := |fields| - 1;
      assert Settled(ValueOf(node), fields[k], value);
      NothingToChange(node, b, fields[..k], value);
      SpanAt(node, b, fields[k]);
    }
  }

  lemma WantedAgain(v: Value, w: Value, fields: seq<Path>, value: Field)
    requires OnlySets(v, w, fields, value)
    ensures forall f | f in fields :: Settled(w, f, value)
  {
    hide Get;
  }

  /** Editing again is accepted, and changes nothing, exactly unless the edit renamed the package it checks. */
  lemma SecondEdit(text: string, sel: Selector, value: Field)
    requires Edited(text, sel, value).Some?
    ensures var out := Edited(text, sel, value).value.0;
      && (Edited(out, sel, value).Some? <==> !(NamesItself(sel) && ValueText(value) != sel.package.value))
      && (Edited(out, sel, value).Some? ==> Edited(out, sel, value).value.0 == out)
  {
    hide ParseDocument, Fields, AddSpans, ValueOf, Changes, WellFormed, Get, Print, OnlySets, EditedTree;
    EditReplaces(text, sel, value);
    var out := Edited(text, sel, value).value.0;
    DocumentPrints(out);
    var (b, node) := ParseDocument(out).value;
    FieldsStay(DataOf(text), DataOf(out), sel, value);
    var fields := FieldsOf(text, sel);
    WantedAgain(DataOf(text), DataOf(out), fields, value);
    NothingToChange(node, b, fields, value);
  }

  /** A manifest that holds its name and nothing else. */
  function Manifest(name: string): (node: Node) {
    Branch(true, "", Entry(DumpsText("name"), "", "", Token(DumpsText(name)), "", "", End))
  }

  lemma WrittenKey(s: string)
    ensures IsKey(DumpsText(s)) && KeyCodes(DumpsText(s)) == Codes(s)
    ensures IsToken(DumpsText(s)) && TokenValue(DumpsText(s)) == Leaf(Str(Codes(s)))
  {
    hide LexString, QuoteBody, Codes;
    TextRoundTrip(s, "");
    assert DumpsText(s) + "" == DumpsText(s);
  }

  lemma ManifestHolds(name: string)
    ensures WellFormed(Manifest(name))
    ensures var v := ValueOf(Manifest(name));
      Named(v, name) && Get(v, [NAME]) == Some(Leaf(Str(Codes(name))))
  {
    hide IsKey, IsToken, KeyCodes, TokenValue, DumpsText, Codes;
    WrittenKey("name");
    WrittenKey(name);
    var e := Manifest(name).entries;
    assert WellFormedHead(true, e, {}) && WellFormed(e.value) && WellFormedEntries(true, End, Seen(true, e.key, {}));
    assert Members(e, map[]) == map[Codes("name") := Leaf(Str(Codes(name)))];
    var v := ValueOf(Manifest(name));
    RootIsSelf(v.members[NAME.codes]);
    assert [NAME][1..] == [];
  }

  /** The refusal happens for any two names: the first edit renames the package, the second
      finds another package than the one it owns. */
  lemma RenamedOnce(was: string, now: string)
    requires was != now
    ensures var sel := JsonField(["name"], Some(was));
      var text := "{" + (DumpsText("name") + (":" + (DumpsText(was) + "}")));
      && Edited(text, sel, TextField(now)).Some?
      && Edited(Edited(text, sel, TextField(now)).value.0, sel, TextField(now)).None?
  {
    hide ParseDocument, AddSpans, ValueOf, WellFormed, Get, Codes, DumpsText, Edited;
    var node := Manifest(was);
    var sel := JsonField(["name"], Some(was));
    var text := "{" + (DumpsText("name") + (":" + (DumpsText(was) + "}")));
    ManifestHolds(was);
    ManifestText(was);
    PrintIsDocument("", node, "");
    assert "" + text + "" == text;
    assert Names(["name"][1..]) == [];
    assert Names(sel.field) == [NAME];
    SpanAt(node, 0, [NAME]);
    EditedOne(text, node, sel, TextField(now));
    SecondEdit(text, sel, TextField(now));
  }

  lemma ManifestText(name: string)
    ensures Print(Manifest(name)) == "{" + (DumpsText("name") + (":" + (DumpsText(name) + "}")))
  {
    hide DumpsText;
    var e := Manifest(name).entries;
    assert PrintRest(true, "", End) == "}";
    assert PrintEntry(true, e) == DumpsText("name") + (":" + DumpsText(name));
  }

  lemma EditedOne(text: string, node: Node, sel: Selector, value: Field)
    requires ParseDocument(text) == Some((0, node)) && Fields(ValueOf(node), sel) == Some([[NAME]])
    requires [NAME] in AddSpans(node, 0, [], map[])
    requires Get(ValueOf(node), [NAME]).Some? && Wanted(value, Get(ValueOf(node), [NAME]).value).Some?
    ensures Edited(text, sel, value).Some?
  {
    hide ParseDocument, AddSpans, ValueOf, Get, Fields, Wanted;
    var fields: seq<Path> := [[NAME]];
    assert fields[..0] == [] && fields[..1] == fields;
    assert Changes(ValueOf(node), AddSpans(node, 0, [], map[]), fields[..0], value) == Some(([], []));
    ChangesStep(ValueOf(node), AddSpans(node, 0, [], map[]), fields, value, 0);
  }

  /** A text that an edit leaves alone already holds the value in every selected field. */
  lemma UnchangedHolds(text: string, sel: Selector, value: Field, f: Path)
    requires Edited(text, sel, value).Some? && Edited(text, sel, value).value.0 == text && f in FieldsOf(text, sel)
    ensures Settled(DataOf(text), f, value)
  {
    hide ParseDocument, Fields, AddSpans, ValueOf, Changes, Get, Print, Edited, EditedTree, FieldsOf, DataOf;
    EditReplaces(text, sel, value);
    WantedAgain(DataOf(text), DataOf(text), FieldsOf(text, sel), value);
  }

  /** No text satisfies two declarations that demand different values of one field. */
  lemma ConflictingEditsChange(text: string, s1: Selector, v1: Field, s2: Selector, v2: Field, f: Path)
    requires f in FieldsOf(text, s1) && f in FieldsOf(text, s2) && ValueText(v1) != ValueText(v2)
    requires Edited(text, s1, v1).Some? && Edited(text, s1, v1).value.0 == text
    ensures !(Edited(text, s2, v2).Some? && Edited(text, s2, v2).value.0 == text)
  {
    hide Edited, FieldsOf, DataOf, Get;
    if Edited(text, s2, v2).Some? && Edited(text, s2, v2).value.0 == text {
      UnchangedHolds(text, s1, v1, f);
      UnchangedHolds(text, s2, v2, f);
      if Codes(ValueText(v1)) == Codes(ValueText(v2)) { CodesInjective(ValueText(v1), ValueText(v2)); }
    }
  }
}
