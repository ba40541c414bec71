/** The value of a parsed JSON document, where each of its scalars lies in the text,
    and what replacing one scalar token does to both. */
module JsonTree {
  import opened Text
  import opened JsonLexer
  import opened JsonDocument

  datatype Step = Name(codes: seq<int>) | Index(i: nat)

  type Path = seq<Step>

  type Span = (nat, nat)

  datatype Value = Leaf(scalar: Scalar) | Dict(members: map<seq<int>, Value>) | List(items: seq<Value>)

  function TokenValue(text: string): (v: Value) {
    if Lex(text).Some? then Leaf(Lex(text).value.0) else Leaf(Null)
  }

  function ValueOf(node: Node): (v: Value)
    decreases node, 0
  {
    match node
    case Token(text) => TokenValue(text)
    case Branch(braces, _, entries) => if braces then Dict(Members(entries, map[])) else List(Items(entries, []))
  }

  function Members(e: Entries, acc: map<seq<int>, Value>): (m: map<seq<int>, Value>)
    decreases e, 0
  {
    if e.End? then acc else Members(e.rest, acc[KeyCodes(e.key) := ValueOf(e.value)])
  }

  function Items(e: Entries, acc: seq<Value>): (s: seq<Value>)
    decreases e, 0
  {
    if e.End? then acc else Items(e.rest, acc + [ValueOf(e.value)])
  }

  /** `current[key]` for each key of the path in turn. */
  function Get(v: Value, p: Path): (r: Option<Value>)
    decreases |p|
  {
    if p == [] then Some(v)
    else if v.Dict? && p[0].Name? && p[0].codes in v.members then Get(v.members[p[0].codes], p[1..])
    else if v.List? && p[0].Index? && p[0].i < |v.items| then Get(v.items[p[0].i], p[1..])
    else None
  }

  /** The same value with `w` at an existing path. */
  function Put(v: Value, p: Path, w: Value): (r: Value)
    decreases |p|
  {
    if p == [] then w
    else if v.Dict? && p[0].Name? && p[0].codes in v.members then
      Dict(v.members[p[0].codes := Put(v.members[p[0].codes], p[1..], w)])
    else if v.List? && p[0].Index? && p[0].i < |v.items| then
      List(v.items[p[0].i := Put(v.items[p[0].i], p[1..], w)])
    else v
  }

  // ---------------------------------------------------------------- positions

  function StepOf(braces: bool, e: Entries, k: nat): (s: Step)
    requires e.Entry?
  {
    if braces then Name(KeyCodes(e.key)) else Index(k)
  }

  function Lead(braces: bool, e: Entries): (n: nat)
    requires e.Entry?
  {
    |Head(braces, e)| + |e.before|
  }

  /** Length of an entry with the comma and white space after it. */
  function Stride(braces: bool, e: Entries): (n: nat)
    requires e.Entry?
  {
    |PrintEntry(braces, e)| + 1 + |e.next|
  }

  function Shift(r: Option<(Node, nat)>, n: nat): (t: Option<(Node, nat)>) {
    if r.None? then None else Some((r.value.0, r.value.1 + n))
  }

  /** The node a path leads to and its offset in the printed text. */
  function At(node: Node, p: Path): (r: Option<(Node, nat)>)
    decreases node, 0
  {
    if p == [] then Some((node, 0))
    else if node.Token? then None
    else Shift(AtEntry(node.braces, node.entries, p, 0), 1 + |node.pad|)
  }

  function AtEntry(braces: bool, e: Entries, p: Path, k: nat): (r: Option<(Node, nat)>)
    requires p != []
    decreases e, 0
  {
    if e.End? then None
    else if StepOf(braces, e, k) == p[0] then Shift(At(e.value, p[1..]), Lead(braces, e))
    else Shift(AtEntry(braces, e.rest, p, k + 1), Stride(braces, e))
  }

  predicate IsLeaf(r: Option<(Node, nat)>) { r.Some? && r.value.0.Token? }

  function SpanOf(r: Option<(Node, nat)>): (s: Span)
    requires IsLeaf(r)
  {
    (r.value.1, r.value.1 + |r.value.0.text|)
  }

  /** The offsets the reader records for the scalars of a node printed at `offset`. */
  function AddSpans(node: Node, offset: nat, path: Path, acc: map<Path, Span>): (r: map<Path, Span>)
    decreases node, 0
  {
    match node
    case Token(text) => acc[path := (offset, offset + |text|)]
    case Branch(braces, pad, entries) => AddEntrySpans(braces, entries, offset + 1 + |pad|, path, 0, acc)
  }

  function AddEntrySpans(braces: bool, e: Entries, offset: nat, path: Path, k: nat, acc: map<Path, Span>): (r: map<Path, Span>)
    decreases e, 0
  {
    if e.End? then acc
    else
      AddEntrySpans(braces, e.rest, offset + Stride(braces, e), path, k + 1,
        AddSpans(e.value, offset + Lead(braces, e), path + [StepOf(braces, e, k)], acc))
  }

  /** No entry matches a step that an earlier one had. */
  predicate Used(braces: bool, step: Step, seen: set<seq<int>>, k: nat) {
    if braces then step.Name? ==> step.codes in seen else step.Index? ==> step.i < k
  }

  lemma {:induction false} NotAgain(braces: bool, e: Entries, seen: set<seq<int>>, p: Path, k: nat)
    requires WellFormedEntries(braces, e, seen) && p != [] && Used(braces, p[0], seen, k)
    ensures AtEntry(braces, e, p, k).None?
  {
    hide WellFormed, KeyCodes;
    if e.Entry? {
      NotAgain(braces, e.rest, Seen(braces, e.key, seen), p, k + 1);
    }
  }

  function Lookup(m: map<Path, Span>, q: Path): (r: Option<Span>) {
    if q in m then Some(m[q]) else None
  }

  /** What a subtree's spans say about one path. */
  function Reported(r: Option<(Node, nat)>, offset: nat, otherwise: Option<Span>): (s: Option<Span>) {
    if IsLeaf(r) then Some((offset + SpanOf(r).0, offset + SpanOf(r).1)) else otherwise
  }

  /** Recording one subtree leaves all other paths alone. */
  lemma {:induction false} OtherSpansStay(node: Node, offset: nat, path: Path, acc: map<Path, Span>, q: Path)
    requires !(path <= q)
    ensures Lookup(AddSpans(node, offset, path, acc), q) == Lookup(acc, q)
    decreases node, 0
  {
    if node.Branch? {
      OtherEntrySpansStay(node.braces, node.entries, offset + 1 + |node.pad|, path, 0, acc, q);
    }
  }

  lemma {:induction false} OtherEntrySpansStay(
      braces: bool, e: Entries, offset: nat, path: Path, k: nat, acc: map<Path, Span>, q: Path)
    requires !(path <= q)
    ensures Lookup(AddEntrySpans(braces, e, offset, path, k, acc), q) == Lookup(acc, q)
    decreases e, 0
  {
    hide KeyCodes, AddSpans, PrintEntry, Lead;
    if e.Entry? {
      var inner := path + [StepOf(braces, e, k)];
      assert inner <= q ==> path <= q;
      OtherSpansStay(e.value, offset + Lead(braces, e), inner, acc, q);
      var mine := AddSpans(e.value, offset + Lead(braces, e), inner, acc);
      OtherEntrySpansStay(braces, e.rest, offset + Stride(braces, e), path, k + 1, mine, q);
    }
  }

  /** The recorded offsets are exactly the scalars' places, whatever was recorded before. */
  lemma {:induction false} SpansAreThePlaces(node: Node, offset: nat, path: Path, acc: map<Path, Span>, p: Path)
    requires WellFormed(node)
    ensures Lookup(AddSpans(node, offset, path, acc), path + p) == Reported(At(node, p), offset, Lookup(acc, path + p))
    decreases node, 0
  {
    if node.Token? {
      TokenSpan(node.text, offset, path, acc, p);
    } else {
      hide AddEntrySpans, AtEntry, WellFormedEntries, Lookup, Reported, AddSpans, At;
      var (braces, e, inner) := (node.braces, node.entries, offset + 1 + |node.pad|);
      if p == [] {
        RootSpan(braces, node.pad, e, offset, path, acc);
        assert path + p == path;
      } else {
        EntrySpansAreThePlaces(braces, e, {}, inner, path, 0, acc, p);
        BranchSpan(braces, node.pad, e, offset, path, acc, p);
      }
    }
  }

  lemma RootSpan(braces: bool, pad: string, e: Entries, offset: nat, path: Path, acc: map<Path, Span>)
    ensures Lookup(AddSpans(Branch(braces, pad, e), offset, path, acc), path)
      == Reported(At(Branch(braces, pad, e), []), offset, Lookup(acc, path))
    decreases e, 1
  {
    hide AddEntrySpans, AtEntry, Lookup;
    RootStays(braces, e, offset + 1 + |pad|, path, 0, acc);
  }

  lemma BranchSpan(braces: bool, pad: string, e: Entries, offset: nat, path: Path, acc: map<Path, Span>, p: Path)
    requires p != []
    requires Lookup(AddEntrySpans(braces, e, offset + 1 + |pad|, path, 0, acc), path + p)
      == Reported(AtEntry(braces, e, p, 0), offset + 1 + |pad|, Lookup(acc, path + p))
    ensures Lookup(AddSpans(Branch(braces, pad, e), offset, path, acc), path + p)
      == Reported(At(Branch(braces, pad, e), p), offset, Lookup(acc, path + p))
  {
    hide AddEntrySpans, AtEntry;
  }

  lemma TokenSpan(text: string, offset: nat, path: Path, acc: map<Path, Span>, p: Path)
    ensures Lookup(acc[path := (offset, offset + |text|)], path + p)
      == Reported(At(Token(text), p), offset, Lookup(acc, path + p))
  {
    if p == [] {
      assert path + p == path;
    } else {
      assert |path + p| != |path|;
    }
  }

  lemma {:induction false} RootStays(braces: bool, e: Entries, offset: nat, path: Path, k: nat, acc: map<Path, Span>)
    ensures Lookup(AddEntrySpans(braces, e, offset, path, k, acc), path) == Lookup(acc, path)
    decreases e, 0
  {
    hide KeyCodes, AddSpans, PrintEntry, Lead;
    if e.Entry? {
      var inner := path + [StepOf(braces, e, k)];
      OtherSpansStay(e.value, offset + Lead(braces, e), inner, acc, path);
      var mine := AddSpans(e.value, offset + Lead(braces, e), inner, acc);
      RootStays(braces, e.rest, offset + Stride(braces, e), path, k + 1, mine);
    }
  }

  lemma {:induction false} EntrySpansAreThePlaces(
      braces: bool, e: Entries, seen: set<seq<int>>, offset: nat, path: Path, k: nat, acc: map<Path, Span>, p: Path)
    requires WellFormedEntries(braces, e, seen) && p != []
    ensures Lookup(AddEntrySpans(braces, e, offset, path, k, acc), path + p)
      == Reported(AtEntry(braces, e, p, k), offset, Lookup(acc, path + p))
    decreases e, 1
  {
    hide WellFormed, KeyCodes, AddSpans, At, PrintEntry, Lead, Lookup, Stride;
    if e.Entry? {
      var step := StepOf(braces, e, k);
      var mine := AddSpans(e.value, offset + Lead(braces, e), path + [step], acc);
      EntrySpansAreThePlaces(braces, e.rest, Seen(braces, e.key, seen), offset + Stride(braces, e), path, k + 1, mine, p);
      OneEntrySpan(braces, e, seen, offset, path, k, acc, p);
      if p[0] == step {
        NotAgain(braces, e.rest, Seen(braces, e.key, seen), p, k + 1);
      }
    }
  }

  /** What the spans of the first entry's value say. */
  lemma {:induction false} OneEntrySpan(
      braces: bool, e: Entries, seen: set<seq<int>>, offset: nat, path: Path, k: nat, acc: map<Path, Span>, p: Path)
    requires e.Entry? && WellFormedEntries(braces, e, seen) && p != []
    ensures var step := StepOf(braces, e, k);
      Lookup(AddSpans(e.value, offset + Lead(braces, e), path + [step], acc), path + p)
      == if p[0] == step then Reported(At(e.value, p[1..]), offset + Lead(braces, e), Lookup(acc, path + p)) else Lookup(acc, path + p)
    decreases e, 0
  {
    hide WellFormedHead, KeyCodes, AddSpans, At, Lead, StepOf;
    var step := StepOf(braces, e, k);
    var inner := path + [step];
    if p[0] == step {
      SpansAreThePlaces(e.value, offset + Lead(braces, e), inner, acc, p[1..]);
      assert inner + p[1..] == path + p;
    } else {
      assert inner[|path|] == step && (path + p)[|path|] == p[0];
      assert !(inner <= path + p);
      OtherSpansStay(e.value, offset + Lead(braces, e), inner, acc, path + p);
    }
  }

  // ---------------------------------------------------------------- values by path

  function Whole(r: Option<(Node, nat)>): (v: Option<Value>) {
    if r.None? then None else Some(ValueOf(r.value.0))
  }

  lemma {:induction false} MembersAt(e: Entries, seen: set<seq<int>>, acc: map<seq<int>, Value>, p: Path, k: nat)
    requires WellFormedEntries(true, e, seen) && p != [] && acc.Keys <= seen
    ensures AtEntry(true, e, p, k).Some? ==> p[0].Name?
    ensures p[0].Name? ==>
      var c := p[0].codes;
      if c in Members(e, acc)
      then Get(Members(e, acc)[c], p[1..]) == (if c in acc then Get(acc[c], p[1..]) else Whole(AtEntry(true, e, p, k)))
      else c !in acc && AtEntry(true, e, p, k).None?
    decreases e, 0
  {
    hide WellFormed, KeyCodes, At, Get, ValueOf, PrintEntry;
    if e.Entry? {
      var more := acc[KeyCodes(e.key) := ValueOf(e.value)];
      MembersAt(e.rest, Seen(true, e.key, seen), more, p, k + 1);
      if StepOf(true, e, k) == p[0] {
        NotAgain(true, e.rest, Seen(true, e.key, seen), p, k + 1);
        GetIsAt(e.value, p[1..]);
      }
    }
  }

  lemma {:induction false} ItemsAt(e: Entries, seen: set<seq<int>>, acc: seq<Value>, p: Path)
    requires WellFormedEntries(false, e, seen) && p != []
    ensures AtEntry(false, e, p, |acc|).Some? ==> p[0].Index?
    ensures acc <= Items(e, acc)
    ensures p[0].Index? && p[0].i >= |acc| ==>
      Whole(AtEntry(false, e, p, |acc|)) == if p[0].i < |Items(e, acc)| then Get(Items(e, acc)[p[0].i], p[1..]) else None
    decreases e, 0
  {
    hide WellFormed, KeyCodes, At, Get, ValueOf, PrintEntry;
    if e.Entry? {
      ItemsAt(e.rest, Seen(false, e.key, seen), acc + [ValueOf(e.value)], p);
      if StepOf(false, e, |acc|) == p[0] {
        GetIsAt(e.value, p[1..]);
      }
    }
  }

  /** Following a path through the value is following it through the text. */
  lemma {:induction false} GetIsAt(node: Node, p: Path)
    requires WellFormed(node)
    ensures Get(ValueOf(node), p) == Whole(At(node, p))
    decreases node, 0
  {
    hide WellFormedEntries, Members, Items, AtEntry;
    if p != [] && node.Branch? {
      if node.braces {
        MembersAt(node.entries, {}, map[], p, 0);
      } else {
        ItemsAt(node.entries, {}, [], p);
      }
    }
  }

  // ---------------------------------------------------------------- replacing a token

  function Replace(node: Node, p: Path, text: string): (r: Node)
    decreases node, 0
  {
    if p == [] then Token(text)
    else if node.Token? then node
    else node.(entries := ReplaceEntry(node.braces, node.entries, p, 0, text))
  }

  function ReplaceEntry(braces: bool, e: Entries, p: Path, k: nat, text: string): (r: Entries)
    requires p != []
    ensures r.Entry? <==> e.Entry?
    decreases e, 0
  {
    if e.End? then e
    else if StepOf(braces, e, k) == p[0] then e.(value := Replace(e.value, p[1..], text))
    else e.(rest := ReplaceEntry(braces, e.rest, p, k + 1, text))
  }

  lemma {:induction false} ReplaceWellFormed(node: Node, p: Path, text: string)
    requires WellFormed(node) && IsToken(text)
    ensures WellFormed(Replace(node, p, text))
    decreases node, 0
  {
    hide WellFormedEntries, ReplaceEntry;
    if p != [] && node.Branch? {
      ReplaceEntryWellFormed(node.braces, node.entries, {}, p, 0, text);
    }
  }

  lemma {:induction false} ReplaceEntryWellFormed(braces: bool, e: Entries, seen: set<seq<int>>, p: Path, k: nat, text: string)
    requires WellFormedEntries(braces, e, seen) && p != [] && IsToken(text)
    ensures WellFormedEntries(braces, ReplaceEntry(braces, e, p, k, text), seen)
    decreases e, 0
  {
    hide WellFormed, Replace, KeyCodes, IsKey, IsToken;
    if e.Entry? {
      if StepOf(braces, e, k) == p[0] {
        ReplaceWellFormed(e.value, p[1..], text);
      } else {
        ReplaceEntryWellFormed(braces, e.rest, Seen(braces, e.key, seen), p, k + 1, text);
      }
    }
  }

  /** `s` with the text from `a` to `b` replaced. */
  function Spliced(s: string, a: nat, b: nat, text: string): (r: string)
    requires a <= b <= |s|
    ensures |r| == |s| - (b - a) + |text|
  {
    s[..a] + text + s[b..]
  }

  lemma SplicedInside(before: string, s: string, after: string, a: nat, b: nat, text: string)
    requires a <= b <= |s|
    ensures Spliced(before + s + after, |before| + a, |before| + b, text) == before + Spliced(s, a, b, text) + after
  {
    var w := before + s + after;
    assert w[..|before| + a] == before + s[..a];
    assert w[|before| + b..] == s[b..] + after;
  }

  predicate Covers(s: string, a: nat, text: string) {
    a + |text| <= |s| && s[a..a + |text|] == text
  }

  lemma CoversInside(before: string, s: string, after: string, a: nat, text: string)
    requires Covers(s, a, text)
    ensures Covers(before + s + after, |before| + a, text)
  {
    var w := before + s + after;
    assert w[|before| + a..|before| + a + |text|] == s[a..a + |text|];
  }

  lemma SameEntryText(braces: bool, e: Entries, next: string, rest: Entries)
    requires e.Entry?
    ensures PrintEntry(braces, e.(next := next, rest := rest)) == PrintEntry(braces, e)
  {
  }

  lemma SameHead(braces: bool, e: Entries, value: Node, rest: Entries)
    requires e.Entry?
    ensures Head(braces, e.(value := value, rest := rest)) == Head(braces, e)
  {
  }

  /** A scalar's token `was` lies from `a` on, and splicing it gives `z`. */
  ghost predicate Splices(s: string, a: nat, was: string, text: string, z: string) {
    Covers(s, a, was) && z == Spliced(s, a, a + |was|, text)
  }

  lemma SplicesInside(before: string, s: string, after: string, a: nat, was: string, text: string, z: string)
    requires Splices(s, a, was, text, z)
    ensures Splices(before + s + after, |before| + a, was, text, before + z + after)
  {
    SplicedInside(before, s, after, a, a + |was|, text);
    CoversInside(before, s, after, a, was);
  }

  lemma EntriesInside(braces: bool, pad: string, e: Entries)
    ensures Print(Branch(braces, pad, e)) == [Open(braces)] + pad + PrintEntries(braces, e) + ""
  {
    hide PrintEntries;
  }

  lemma SplicesAll(s: string, text: string)
    ensures Splices(s, 0, s, text, text)
  {
    assert s[..0] + text + s[|s|..] == text;
    assert s[0..|s|] == s;
  }

  /** Replacing a scalar is splicing its span, and the span holds its token. */
  lemma {:induction false} ReplaceSplices(node: Node, p: Path, text: string)
    requires IsLeaf(At(node, p))
    ensures Splices(Print(node), At(node, p).value.1, At(node, p).value.0.text, text, Print(Replace(node, p, text)))
    decreases node, 0
  {
    if p == [] {
      SplicesAll(Print(node), text);
    } else {
      hide AtEntry, ReplaceEntry, PrintEntries, Print, Splices;
      var (braces, e) := (node.braces, node.entries);
      ReplaceEntrySplices(braces, e, p, 0, text);
      var (inner, a) := AtEntry(braces, e, p, 0).value;
      BranchSplices(braces, node.pad, e, ReplaceEntry(braces, e, p, 0, text), a, inner.text, text);
    }
  }

  lemma BranchSplices(braces: bool, pad: string, e: Entries, z: Entries, a: nat, was: string, text: string)
    requires Splices(PrintEntries(braces, e), a, was, text, PrintEntries(braces, z))
    ensures Splices(Print(Branch(braces, pad, e)), 1 + |pad| + a, was, text, Print(Branch(braces, pad, z)))
  {
    hide PrintEntries, Print, Splices;
    EntriesInside(braces, pad, e);
    EntriesInside(braces, pad, z);
    SplicesInside([Open(braces)] + pad, PrintEntries(braces, e), "", a, was, text, PrintEntries(braces, z));
  }

  lemma {:induction false} ReplaceEntrySplices(braces: bool, e: Entries, p: Path, k: nat, text: string)
    requires p != [] && IsLeaf(AtEntry(braces, e, p, k))
    ensures var r := AtEntry(braces, e, p, k);
      Splices(PrintEntries(braces, e), r.value.1, r.value.0.text, text, PrintEntries(braces, ReplaceEntry(braces, e, p, k, text)))
    decreases e, 0
  {
    hide At, Replace, KeyCodes, Print, Splices, Head, PrintEntry;
    var was := AtEntry(braces, e, p, k).value.0.text;
    if StepOf(braces, e, k) == p[0] {
      ReplaceSplices(e.value, p[1..], text);
      var z := Replace(e.value, p[1..], text);
      var (before, after) := (Head(braces, e) + e.before, e.after + PrintRest(braces, e.next, e.rest));
      ValueInside(braces, e, e.value);
      ValueInside(braces, e, z);
      assert e.(value := e.value) == e;
      SplicesInside(before, Print(e.value), after, At(e.value, p[1..]).value.1, was, text, Print(z));
    } else {
      ReplaceEntrySplices(braces, e.rest, p, k + 1, text);
      RestSplices(braces, e, ReplaceEntry(braces, e.rest, p, k + 1, text), AtEntry(braces, e.rest, p, k + 1).value.1, was, text);
    }
  }

  lemma RestSplices(braces: bool, e: Entries, z: Entries, a: nat, was: string, text: string)
    requires e.Entry? && e.rest.Entry? && z.Entry?
    requires Splices(PrintEntries(braces, e.rest), a, was, text, PrintEntries(braces, z))
    ensures Splices(PrintEntries(braces, e), Stride(braces, e) + a, was, text, PrintEntries(braces, e.(rest := z)))
  {
    hide Splices, PrintEntry;
    var before := PrintEntry(braces, e) + "," + e.next;
    SameEntryText(braces, e, e.next, z);
    assert PrintEntries(braces, e) == before + PrintEntries(braces, e.rest) + "";
    assert PrintEntries(braces, e.(rest := z)) == before + PrintEntries(braces, z) + "";
    SplicesInside(before, PrintEntries(braces, e.rest), "", a, was, text, PrintEntries(braces, z));
  }

  lemma ValueInside(braces: bool, e: Entries, value: Node)
    requires e.Entry?
    ensures PrintEntries(braces, e.(value := value))
      == Head(braces, e) + e.before + Print(value) + (e.after + PrintRest(braces, e.next, e.rest))
  {
    hide Print, PrintRest, Head;
    SameHead(braces, e, value, e.rest);
  }

  /** Two scalars lie apart, and replacing the later one leaves the earlier one in place. */
  lemma {:induction false} Apart(node: Node, p: Path, q: Path, text: string)
    requires IsLeaf(At(node, p)) && IsLeaf(At(node, q)) && p != q
    ensures SpanOf(At(node, p)).1 <= SpanOf(At(node, q)).0
      || (SpanOf(At(node, q)).1 <= SpanOf(At(node, p)).0 && At(Replace(node, p, text), q) == At(node, q))
    decreases node, 0
  {
    hide AtEntry, ReplaceEntry, PrintEntries;
    EntriesApart(node.braces, node.entries, p, q, 0, text);
  }

  lemma {:induction false} EntriesApart(braces: bool, e: Entries, p: Path, q: Path, k: nat, text: string)
    requires p != [] && q != [] && p != q
    requires IsLeaf(AtEntry(braces, e, p, k)) && IsLeaf(AtEntry(braces, e, q, k))
    ensures var (x, y) := (SpanOf(AtEntry(braces, e, p, k)), SpanOf(AtEntry(braces, e, q, k)));
      x.1 <= y.0 || (y.1 <= x.0 && AtEntry(braces, ReplaceEntry(braces, e, p, k, text), q, k) == AtEntry(braces, e, q, k))
    decreases e, 0
  {
    hide At, Replace, KeyCodes, Print, Splices, Head, PrintEntry;
    var step := StepOf(braces, e, k);
    if step == p[0] && step == q[0] {
      assert p == [step] + p[1..] && q == [step] + q[1..];
      Apart(e.value, p[1..], q[1..], text);
      SameHead(braces, e, Replace(e.value, p[1..], text), e.rest);
    } else if step == p[0] {
      Inside(e.value, p[1..]);
      ValueFits(braces, e);
    } else if step == q[0] {
      Inside(e.value, q[1..]);
      ValueFits(braces, e);
      SameHead(braces, e, e.value, ReplaceEntry(braces, e.rest, p, k + 1, text));
    } else {
      EntriesApart(braces, e.rest, p, q, k + 1, text);
      SameEntryText(braces, e, e.next, ReplaceEntry(braces, e.rest, p, k + 1, text));
    }
  }

  lemma ValueFits(braces: bool, e: Entries)
    requires e.Entry?
    ensures Lead(braces, e) + |Print(e.value)| <= Stride(braces, e)
  {
    hide Print, Head;
  }

  lemma Inside(node: Node, p: Path)
    requires IsLeaf(At(node, p))
    ensures SpanOf(At(node, p)).1 <= |Print(node)|
  {
    hide At, Print, Replace;
    ReplaceSplices(node, p, "");
  }

  lemma {:induction false} MembersBeside(e: Entries, seen: set<seq<int>>, acc: map<seq<int>, Value>, c: seq<int>, v: Value)
    requires WellFormedEntries(true, e, seen) && c in seen
    ensures Members(e, acc[c := v]) == Members(e, acc)[c := v]
    decreases e
  {
    hide WellFormed, KeyCodes, ValueOf;
    if e.Entry? {
      var k := KeyCodes(e.key);
      MembersBeside(e.rest, Seen(true, e.key, seen), acc[k := ValueOf(e.value)], c, v);
      assert acc[k := ValueOf(e.value)][c := v] == acc[c := v][k := ValueOf(e.value)];
    }
  }

  lemma {:induction false} ItemsFromHere(e: Entries, acc: seq<Value>)
    ensures Items(e, acc) == acc + Items(e, [])
    decreases e
  {
    hide ValueOf;
    if e.Entry? {
      var v := [ValueOf(e.value)];
      ItemsFromHere(e.rest, acc + v);
      ItemsFromHere(e.rest, [] + v);
    }
  }

  lemma {:induction false} ReplaceMember(e: Entries, seen: set<seq<int>>, acc: map<seq<int>, Value>, p: Path, k: nat, text: string)
    requires WellFormedEntries(true, e, seen) && p != [] && acc.Keys <= seen && AtEntry(true, e, p, k).Some?
    ensures p[0].Name? && p[0].codes in Members(e, acc)
    ensures var m := Members(e, acc);
      Members(ReplaceEntry(true, e, p, k, text), acc) == m[p[0].codes := Put(m[p[0].codes], p[1..], TokenValue(text))]
    decreases e, 0
  {
    hide WellFormed, KeyCodes, At, Replace, Put, ValueOf, PrintEntry, TokenValue;
    var c := KeyCodes(e.key);
    var inner := Seen(true, e.key, seen);
    if StepOf(true, e, k) == p[0] {
      ReplaceValue(e.value, p[1..], text);
      var v := ValueOf(e.value);
      MembersBeside(e.rest, inner, acc, c, v);
      MembersBeside(e.rest, inner, acc, c, Put(v, p[1..], TokenValue(text)));
    } else {
      ReplaceMember(e.rest, inner, acc[c := ValueOf(e.value)], p, k + 1, text);
    }
  }

  lemma {:induction false} ReplaceItem(e: Entries, seen: set<seq<int>>, acc: seq<Value>, p: Path, text: string)
    requires WellFormedEntries(false, e, seen) && p != [] && AtEntry(false, e, p, |acc|).Some?
    ensures p[0].Index? && |acc| <= p[0].i < |Items(e, acc)|
    ensures var s := Items(e, acc);
      Items(ReplaceEntry(false, e, p, |acc|, text), acc) == s[p[0].i := Put(s[p[0].i], p[1..], TokenValue(text))]
    decreases e, 0
  {
    hide WellFormed, KeyCodes, At, Replace, Put, ValueOf, PrintEntry, TokenValue;
    var v := ValueOf(e.value);
    if StepOf(false, e, |acc|) == p[0] {
      ReplaceValue(e.value, p[1..], text);
      ItemsFromHere(e.rest, acc + [v]);
      ItemsFromHere(e.rest, acc + [Put(v, p[1..], TokenValue(text))]);
    } else {
      ReplaceItem(e.rest, Seen(false, e.key, seen), acc + [v], p, text);
    }
  }

  /** Replacing a token changes the value at that path and nothing else. */
  lemma {:induction false} ReplaceValue(node: Node, p: Path, text: string)
    requires WellFormed(node) && At(node, p).Some?
    ensures ValueOf(Replace(node, p, text)) == Put(ValueOf(node), p, TokenValue(text))
    decreases node, 0
  {
    if p != [] {
      hide AtEntry, ReplaceEntry, WellFormedEntries, Members, Items;
      if node.braces {
        ReplaceMember(node.entries, {}, map[], p, 0, text);
      } else {
        ReplaceItem(node.entries, {}, [], p, text);
      }
    }
  }

  // ---------------------------------------------------------------- laws of Get and Put

  lemma {:induction false} GetPutSame(v: Value, p: Path, w: Value)
    requires Get(v, p).Some?
    ensures Get(Put(v, p, w), p) == Some(w)
    decreases |p|
  {
    if p != [] {
      GetPutSame(if v.Dict? then v.members[p[0].codes] else v.items[p[0].i], p[1..], w);
    }
  }

  lemma {:induction false} GetPutOther(v: Value, p: Path, w: Value, q: Path)
    requires !(p <= q) && !(q <= p)
    ensures Get(Put(v, p, w), q) == Get(v, q)
    decreases |p|
  {
    assert p != [] && q != [];
    var x := if p[0].Name? && v.Dict? && p[0].codes in v.members then Some(v.members[p[0].codes])
      else if p[0].Index? && v.List? && p[0].i < |v.items| then Some(v.items[p[0].i]) else None;
    if p[0] == q[0] && x.Some? {
      assert p == [p[0]] + p[1..] && q == [q[0]] + q[1..];
      GetPutOther(x.value, p[1..], w, q[1..]);
    }
  }
}
