/** The reader class of `scripts/version_plan.py`, which walks a text by offset and fills a
    map of scalar spans, proved against the parse of that text. */
module JsonReader {
  import opened Text
  import opened JsonLexer
  import opened JsonDocument
  import opened JsonTree

  lemma Suffix(s: string, i: nat, k: nat)
    requires i + k <= |s|
    ensures s[i..][k..] == s[i + k..]
  {
  }

  datatype Read = Read(value: Value, end: nat)

  /** What the methods have to return and record for a node at `start`. */
  ghost predicate Reads(
      node: Option<(Node, nat)>, start: nat, path: Path, before: map<Path, Span>, r: Option<Read>, after: map<Path, Span>)
  {
    && (r.Some? <==> node.Some?)
    && (r.Some? ==>
      && r.value == Read(ValueOf(node.value.0), start + node.value.1)
      && after == AddSpans(node.value.0, start, path, before))
  }

  /** Everything gathered once the entries `e` are added to what has been read so far. */
  function Gathered(braces: bool, e: Entries, sofar: Value): (v: Value) {
    if braces && sofar.Dict? then Dict(Members(e, sofar.members))
    else if !braces && sofar.List? then List(Items(e, sofar.items))
    else sofar
  }

  function Nothing(braces: bool): (v: Value) { if braces then Dict(map[]) else List([]) }

  function Grown(sofar: Value, step: Step, v: Value): (w: Value) {
    if sofar.Dict? && step.Name? then Dict(sofar.members[step.codes := v])
    else if sofar.List? then List(sofar.items + [v])
    else sofar
  }

  /** The entries still to be read lead to the same value, end and spans as all of them did. */
  ghost predicate OnTrack(
      braces: bool, whole: Option<(Entries, nat)>, here: Option<(Entries, nat)>, first: nat, index: nat, path: Path, k: nat,
      before: map<Path, Span>, now: map<Path, Span>, sofar: Value)
  {
    && (whole.Some? <==> here.Some?)
    && (whole.Some? ==>
      && first + whole.value.1 == index + here.value.1
      && Gathered(braces, whole.value.0, Nothing(braces)) == Gathered(braces, here.value.0, sofar)
      && AddEntrySpans(braces, whole.value.0, first, path, 0, before) == AddEntrySpans(braces, here.value.0, index, path, k, now))
  }

  lemma HeadFrom(text: string, i: nat, seen: set<seq<int>>)
    requires i <= |text|
    ensures var key := LexString(text[i..]);
      ParseHead(true, text[i..], seen) ==
        if key.None? || key.value.0 in seen then None
        else
          var n := key.value.1;
          var j := i + n + Blank(text[i + n..]);
          if j < |text| && text[j] == ':' then Some(HeadText(text[i..i + n], text[i + n..j], j + 1 - i)) else None
  {
    hide LexString, Blank;
    var s := text[i..];
    if LexString(s).Some? {
      var n := LexString(s).value.1;
      Suffix(text, i, n);
      var g := Blank(s[n..]);
      assert i + n + g < |text| ==> s[n + g] == text[i + n + g];
      assert s[n..n + g] == text[i + n..i + n + g] && s[..n] == text[i..i + n];
    }
  }

  lemma KeyText(s: string)
    requires LexString(s).Some?
    ensures KeyCodes(s[..LexString(s).value.1]) == LexString(s).value.0
  {
    hide LexString;
    LexStringLocal(s, "");
    assert s[..LexString(s).value.1] + "" == s[..LexString(s).value.1];
  }

  lemma EntryCutShort(braces: bool, s: string, seen: set<seq<int>>, head: HeadText, b: nat, v: Node, n: nat, a: nat)
    requires ParseHead(braces, s, seen) == Some(head)
    requires head.size + b + n + a == |s|
    requires Blank(s[head.size..]) == b && ParseNode(s[head.size + b..]) == Some((v, n))
    requires Blank(s[head.size + b + n..]) == a
    ensures ParseEntries(braces, s, seen).None?
  {
    hide ParseHead, Blank, ParseNode, ParseMore;
  }

  /** One entry by offset: its value, read after `head`, and the white space around it. */
  lemma EntryAt(braces: bool, text: string, i: nat, seen: set<seq<int>>, head: HeadText, start: nat, v: Node, end: nat, m: nat)
    requires i + head.size <= start < end <= m <= |text|
    requires ParseHead(braces, text[i..], seen) == Some(head)
    requires start == i + head.size + Blank(text[i + head.size..])
    requires ParseNode(text[start..]) == Some((v, end - start))
    requires m == end + Blank(text[end..])
    ensures m == |text| ==> ParseEntries(braces, text[i..], seen).None?
    ensures m < |text| ==>
      ParseEntry(braces, text[i..], seen) ==
        Some((Entry(head.key, head.gap, text[i + head.size..start], v, text[end..m], "", End), m - i))
  {
    hide ParseHead, Blank, ParseNode, ParseMore, ParseEntry, ParseEntries, IsSpace, Spaces;
    var s := text[i..];
    Suffix(text, i, head.size);
    Suffix(text, i, start - i);
    Suffix(text, i, end - i);
    if m == |text| {
      EntryCutShort(braces, s, seen, head, start - i - head.size, v, end - start, m - end);
    } else {
      EntryInside(braces, text, i, seen, head, start, v, end, m);
    }
  }

  lemma EntryInside(braces: bool, text: string, i: nat, seen: set<seq<int>>, head: HeadText, start: nat, v: Node, end: nat, m: nat)
    requires i + head.size <= start < end <= m < |text|
    requires ParseHead(braces, text[i..], seen) == Some(head)
    requires start == i + head.size + Blank(text[i..][head.size..])
    requires ParseNode(text[i..][start - i..]) == Some((v, end - start))
    requires m == end + Blank(text[i..][end - i..])
    ensures ParseEntry(braces, text[i..], seen) ==
      Some((Entry(head.key, head.gap, text[i + head.size..start], v, text[end..m], "", End), m - i))
  {
    hide ParseHead, Blank, ParseNode, ParseEntry;
    EntryFrom(braces, text[i..], seen, head, start - i - head.size, v, end - start, m - end);
    Middle(text, i, i + head.size, start);
    Middle(text, i, end, m);
  }

  lemma Middle(text: string, i: nat, a: nat, b: nat)
    requires i <= a <= b <= |text|
    ensures text[i..][a - i..b - i] == text[a..b]
  {
  }

  lemma NothingRead(braces: bool, s: string, seen: set<seq<int>>)
    ensures var head := ParseHead(braces, s, seen);
      head.None? || ParseNode(s[head.value.size + Blank(s[head.value.size..])..]).None? ==> ParseEntries(braces, s, seen).None?
  {
    hide ParseHead, Blank, ParseNode, ParseMore;
  }

  lemma NoEntry(braces: bool, text: string, i: nat, seen: set<seq<int>>)
    requires i <= |text|
    ensures var head := ParseHead(braces, text[i..], seen);
      var j := i + (if head.None? then 0 else head.value.size);
      head.None? || ParseNode(text[j + Blank(text[j..])..]).None? ==> ParseEntries(braces, text[i..], seen).None?
  {
    hide ParseHead, Blank, ParseNode, ParseMore, ParseEntry, ParseEntries;
    var head := ParseHead(braces, text[i..], seen);
    NothingRead(braces, text[i..], seen);
    if head.Some? {
      var j := i + head.value.size;
      Suffix(text, i, head.value.size);
      Suffix(text, i, head.value.size + Blank(text[j..]));
    }
  }

  lemma EntrySize(braces: bool, s: string, seen: set<seq<int>>)
    requires ParseEntry(braces, s, seen).Some?
    requires !braces && s != "" ==> !IsSpace(s[0])
    ensures |PrintEntry(braces, ParseEntry(braces, s, seen).value.0)| == ParseEntry(braces, s, seen).value.1
  {
    hide PrintEntry, ParseEntry, WellFormed, WellFormedHead;
    PrintParseEntry(braces, s, seen);
  }

  lemma LeadSize(braces: bool, s: string, seen: set<seq<int>>, e: Entries)
    requires e.Entry? && ParseHead(braces, s, seen).Some?
    requires var h := ParseHead(braces, s, seen).value; e.key == h.key && e.gap == h.gap
    ensures Lead(braces, e) == ParseHead(braces, s, seen).value.size + |e.before|
  {
    hide ParseHead, IsKey, KeyCodes;
    HeadSound(braces, s, seen);
    assert |s[..ParseHead(braces, s, seen).value.size]| == ParseHead(braces, s, seen).value.size;
  }

  /** The entries after a comma, by offset. */
  lemma MoreAt(braces: bool, text: string, n: nat, seen: set<seq<int>>)
    requires n <= |text|
    ensures var j := n + Blank(text[n..]);
      var more := ParseEntries(braces, text[j..], seen);
      ParseMore(braces, text[n..], seen) == if more.None? then None else Some((text[n..j], more.value.0, j - n + more.value.1))
  {
    hide ParseEntries, Blank;
    var b := Blank(text[n..]);
    Suffix(text, n, b);
    Cut(text, n, b);
  }

  lemma EntriesSteps(braces: bool, s: string, seen: set<seq<int>>, e: Entries, m: nat)
    requires e.Entry? && m < |s| && ParseEntry(braces, s, seen) == Some((e, m)) && s[m] != Close(braces)
    ensures var more := ParseMore(braces, s[m + 1..], Seen(braces, e.key, seen));
      ParseEntries(braces, s, seen) ==
        if s[m] == ',' && more.Some? then Some((e.(next := more.value.0, rest := more.value.1), m + 1 + more.value.2)) else None
  {
    hide ParseEntry, ParseMore, Seen;
  }

  /** What is left after the entry `e` that ends before offset `m`. */
  lemma EntriesAt(braces: bool, text: string, i: nat, seen: set<seq<int>>, e: Entries, m: nat)
    requires i <= m < |text| && e.Entry? && e.next == "" && e.rest.End?
    requires ParseEntry(braces, text[i..], seen) == Some((e, m - i))
    ensures var j := m + 1 + Blank(text[m + 1..]);
      var more := ParseEntries(braces, text[j..], Seen(braces, e.key, seen));
      ParseEntries(braces, text[i..], seen) ==
        if text[m] == Close(braces) then Some((e, m + 1 - i))
        else if text[m] == ',' && more.Some? then Some((e.(next := text[m + 1..j], rest := more.value.0), j - i + more.value.1))
        else None
  {
    hide ParseEntry, ParseEntries, ParseMore, Blank, Seen;
    assert text[i..][m - i] == text[m];
    if text[m] == Close(braces) {
      LastFrom(braces, text[i..], seen, e, m - i);
    } else {
      Suffix(text, i, m + 1 - i);
      MoreAt(braces, text, m + 1, Seen(braces, e.key, seen));
      EntriesSteps(braces, text[i..], seen, e, m - i);
    }
  }

  /** How a bracketed node reads, by offset. */
  lemma BranchAt(text: string, index: nat, braces: bool)
    requires index < |text| && text[index] == Open(braces)
    ensures var b := Blank(text[index + 1..]);
      var i := index + 1 + b;
      var e := ParseEntries(braces, text[i..], {});
      ParseNode(text[index..]) ==
        if i < |text| && text[i] == Close(braces) then Some((Branch(braces, text[index + 1..i], End), b + 2))
        else if e.None? then None else Some((Branch(braces, text[index + 1..i], e.value.0), 1 + b + e.value.1))
  {
    hide Blank, ParseEntries;
    var s := text[index..];
    var b := Blank(text[index + 1..]);
    Suffix(text, index, 1);
    Suffix(text, index, 1 + b);
    assert s[1..1 + b] == text[index + 1..index + 1 + b];
    assert index + 1 + b < |text| ==> s[1 + b..][0] == text[index + 1 + b];
  }

  /** Spans recorded for one entry and then for the rest are those of all of them. */
  lemma SpansStep(braces: bool, e: Entries, next: string, rest: Entries, i: nat, path: Path, k: nat, now: map<Path, Span>)
    requires e.Entry?
    ensures AddEntrySpans(braces, e.(next := next, rest := rest), i, path, k, now)
      == AddEntrySpans(braces, rest, i + |PrintEntry(braces, e)| + 1 + |next|, path, k + 1,
        AddSpans(e.value, i + Lead(braces, e), path + [StepOf(braces, e, k)], now))
  {
    hide AddSpans, KeyCodes, PrintEntry;
    SameEntryText(braces, e, next, rest);
    SameHead(braces, e, e.value, rest);
  }

  lemma GatherStep(braces: bool, e: Entries, next: string, rest: Entries, k: nat, sofar: Value)
    requires e.Entry? && (if braces then sofar.Dict? else sofar.List?)
    ensures Gathered(braces, e.(next := next, rest := rest), sofar)
      == Gathered(braces, rest, Grown(sofar, StepOf(braces, e, k), ValueOf(e.value)))
  {
    hide ValueOf, KeyCodes;
  }

  lemma GatherEnd(braces: bool, sofar: Value)
    ensures Gathered(braces, End, sofar) == sofar
  {
  }

  /** Reading one more entry keeps the reader on track, or finishes the bracket. */
  lemma TrackStep(
      braces: bool, text: string, whole: Option<(Entries, nat)>, first: nat, i: nat, seen: set<seq<int>>, e: Entries, m: nat,
      path: Path, k: nat, before: map<Path, Span>, now: map<Path, Span>, sofar: Value)
    requires i <= m < |text| && e.Entry? && e.next == "" && e.rest.End? && (if braces then sofar.Dict? else sofar.List?)
    requires !braces && i < |text| ==> !IsSpace(text[i])
    requires ParseEntry(braces, text[i..], seen) == Some((e, m - i))
    requires OnTrack(braces, whole, ParseEntries(braces, text[i..], seen), first, i, path, k, before, now, sofar)
    ensures var j := m + 1 + Blank(text[m + 1..]);
      var more := ParseEntries(braces, text[j..], Seen(braces, e.key, seen));
      var after := AddSpans(e.value, i + Lead(braces, e), path + [StepOf(braces, e, k)], now);
      var grown := Grown(sofar, StepOf(braces, e, k), ValueOf(e.value));
      && (text[m] == Close(braces) ==>
        && whole.Some? && first + whole.value.1 == m + 1
        && Gathered(braces, whole.value.0, Nothing(braces)) == grown
        && AddEntrySpans(braces, whole.value.0, first, path, 0, before) == after)
      && (text[m] == ',' ==> OnTrack(braces, whole, more, first, j, path, k + 1, before, after, grown))
      && (text[m] != Close(braces) && text[m] != ',' ==> whole.None?)
  {
    hide ParseEntry, ParseEntries, Blank, AddSpans, AddEntrySpans, PrintEntry, Lead, StepOf, Gathered, Grown;
    EntriesAt(braces, text, i, seen, e, m);
    EntrySize(braces, text[i..], seen);
    var j := m + 1 + Blank(text[m + 1..]);
    var more := ParseEntries(braces, text[j..], Seen(braces, e.key, seen));
    if text[m] == Close(braces) {
      SpansStep(braces, e, "", End, i, path, k, now);
      NoSpans(braces, i + |PrintEntry(braces, e)| + 1, path, k + 1, AddSpans(e.value, i + Lead(braces, e), path + [StepOf(braces, e, k)], now));
      GatherStep(braces, e, "", End, k, sofar);
      GatherEnd(braces, Grown(sofar, StepOf(braces, e, k), ValueOf(e.value)));
      assert e.(next := "", rest := End) == e;
    } else if more.Some? {
      SpansStep(braces, e, text[m + 1..j], more.value.0, i, path, k, now);
      GatherStep(braces, e, text[m + 1..j], more.value.0, k, sofar);
    }
  }

  lemma NoSpans(braces: bool, i: nat, path: Path, k: nat, now: map<Path, Span>)
    ensures AddEntrySpans(braces, End, i, path, k, now) == now
  {
  }

  /** Where an entry's value starts, after its head and white space. */
  function EntryStart(text: string, i: nat, head: HeadText): (start: nat)
    requires i + head.size <= |text|
    ensures i + head.size <= start <= |text|
  {
    i + head.size + Blank(text[i + head.size..])
  }

  function Inside(text: string, index: nat): (first: nat)
    requires index < |text|
    ensures index < first <= |text|
  {
    index + 1 + Blank(text[index + 1..])
  }

  /** The keys an object has so far. */
  function Taken(sofar: Value): (keys: set<seq<int>>) {
    if sofar.Dict? then sofar.members.Keys else {}
  }

  lemma TakenGrows(braces: bool, sofar: Value, key: string, k: nat, v: Value)
    requires if braces then sofar.Dict? else sofar.List?
    ensures var step := if braces then Name(KeyCodes(key)) else Index(k);
      Taken(Grown(sofar, step, v)) == Seen(braces, key, Taken(sofar))
  {
  }

  /** The loop over the entries of the bracket at `index` stands at `i`. */
  ghost predicate Under(
      braces: bool, text: string, index: nat, i: nat, path: Path, k: nat,
      before: map<Path, Span>, now: map<Path, Span>, sofar: Value)
  {
    && index < i <= |text| && text[index] == Open(braces) && (if braces then sofar.Dict? else sofar.List?)
    && (i < |text| ==> !IsSpace(text[i]))
    && var first := Inside(text, index);
    && (first < |text| ==> text[first] != Close(braces))
    && OnTrack(braces, ParseEntries(braces, text[first..], {}), ParseEntries(braces, text[i..], Taken(sofar)), first, i, path, k, before, now, sofar)
  }

  lemma StartsUnder(braces: bool, text: string, index: nat, path: Path, now: map<Path, Span>)
    requires index < |text| && text[index] == Open(braces)
    requires var first := Inside(text, index); first < |text| ==> text[first] != Close(braces)
    ensures Under(braces, text, index, Inside(text, index), path, 0, now, now, Nothing(braces))
  {
    hide ParseEntries, Gathered, AddEntrySpans;
    assert Taken(Nothing(braces)) == {};
  }

  lemma StartsEmpty(braces: bool, text: string, index: nat, path: Path, now: map<Path, Span>)
    requires index < |text| && text[index] == Open(braces)
    requires var first := Inside(text, index); first < |text| && text[first] == Close(braces)
    ensures Reads(ParseNode(text[index..]), index, path, now, Some(Read(Nothing(braces), Inside(text, index) + 1)), now)
  {
    hide ParseEntries, Blank, ParseNode;
    BranchAt(text, index, braces);
    NothingInside(braces, text[index + 1..Inside(text, index)], index, path, now);
  }

  /** Where the loop gives up, the bracket does not parse. */
  lemma Stuck(
      braces: bool, text: string, index: nat, i: nat, path: Path, k: nat,
      before: map<Path, Span>, now: map<Path, Span>, sofar: Value, after: map<Path, Span>)
    requires Under(braces, text, index, i, path, k, before, now, sofar)
    requires var head := ParseHead(braces, text[i..], Taken(sofar));
      var j := i + (if head.None? then 0 else head.value.size);
      head.None? || ParseNode(text[j + Blank(text[j..])..]).None?
    ensures Reads(ParseNode(text[index..]), index, path, before, None, after)
  {
    hide ParseHead, Blank, ParseNode, ParseEntries, Gathered, AddEntrySpans;
    NoEntry(braces, text, i, Taken(sofar));
    BranchRead(braces, text, index, Inside(text, index), path, before);
  }

  /** What the loop must do when it has read `v` and stands before a delimiter at `m`. */
  ghost predicate Decided(
      braces: bool, text: string, index: nat, m: nat, path: Path, k: nat,
      before: map<Path, Span>, now: map<Path, Span>, sofar: Value)
    requires index <= |text|
  {
    if m < |text| && text[m] == Close(braces) then
      Reads(ParseNode(text[index..]), index, path, before, Some(Read(sofar, m + 1)), now)
    else if m < |text| && text[m] == ',' then
      Under(braces, text, index, m + 1 + Blank(text[m + 1..]), path, k + 1, before, now, sofar)
    else Reads(ParseNode(text[index..]), index, path, before, None, now)
  }

  /** One round of the reader's loop over the entries of the bracket at `index`. */
  lemma Round(
      braces: bool, text: string, index: nat, i: nat, head: HeadText, start: nat, v: Node, end: nat, m: nat,
      path: Path, k: nat, before: map<Path, Span>, now: map<Path, Span>, sofar: Value)
    requires Under(braces, text, index, i, path, k, before, now, sofar)
    requires i + head.size <= start < end <= m <= |text|
    requires ParseHead(braces, text[i..], Taken(sofar)) == Some(head)
    requires start == i + head.size + Blank(text[i + head.size..])
    requires ParseNode(text[start..]) == Some((v, end - start))
    requires m == end + Blank(text[end..])
    ensures var step := if braces then Name(KeyCodes(head.key)) else Index(k);
      Decided(braces, text, index, m, path, k, before,
        AddSpans(v, start, path + [step], now), Grown(sofar, step, ValueOf(v)))
  {
    hide ParseEntry, ParseEntries, ParseNode, ParseHead, Blank, AddSpans, AddEntrySpans, PrintEntry, Lead, KeyCodes, Gathered, OnTrack, ValueOf;
    var first := Inside(text, index);
    var whole := ParseEntries(braces, text[first..], {});
    EntryAt(braces, text, i, Taken(sofar), head, start, v, end, m);
    OffTrack(braces, whole, ParseEntries(braces, text[i..], Taken(sofar)), first, i, path, k, before, now, sofar);
    BranchRead(braces, text, index, first, path, before);
    if m < |text| {
      var e := Entry(head.key, head.gap, text[i + head.size..start], v, text[end..m], "", End);
      LeadSize(braces, text[i..], Taken(sofar), e);
      TakenGrows(braces, sofar, head.key, k, ValueOf(v));
      TrackStep(braces, text, whole, first, i, Taken(sofar), e, m, path, k, before, now, sofar);
    }
  }

  lemma OffTrack(
      braces: bool, whole: Option<(Entries, nat)>, here: Option<(Entries, nat)>, first: nat, index: nat, path: Path, k: nat,
      before: map<Path, Span>, now: map<Path, Span>, sofar: Value)
    requires OnTrack(braces, whole, here, first, index, path, k, before, now, sofar)
    ensures here.None? ==> whole.None?
  {
  }

  lemma BlankHere(text: string, i: nat)
    requires i <= |text|
    ensures Blank(text[i..]) == if i < |text| && IsSpace(text[i]) then Blank(text[i + 1..]) + 1 else 0
  {
    if i < |text| {
      Suffix(text, i, 1);
      assert text[i..][0] == text[i];
    }
  }

  class JsonReader {
    const text: string
    var spans: map<Path, Span>

    constructor (raw: string)
      ensures text == raw && spans == map[]
    {
      text := raw;
      spans := map[];
    }

    method Whitespace(index: nat) returns (end: nat)
      requires index <= |text|
      ensures end == index + Blank(text[index..]) && end <= |text|
    {
      hide Blank;
      end := index;
      BlankHere(text, end);
      while end < |text| && IsSpace(text[end])
        invariant index <= end <= |text|
        invariant index + Blank(text[index..]) == end + Blank(text[end..])
        invariant end == |text| || !IsSpace(text[end]) ==> Blank(text[end..]) == 0
      {
        BlankHere(text, end);
        end := end + 1;
        BlankHere(text, end);
      }
    }

    /** The scalar, object or array after any white space at `index`. */
    method Parse(index: nat, path: Path) returns (r: Option<Read>)
      requires index <= |text|
      modifies this`spans
      ensures var start := index + Blank(text[index..]);
        Reads(ParseNode(text[start..]), start, path, old(spans), r, spans)
      decreases |text| - index, 1
    {
      hide Blank, ParseEntries, Lex;
      var start := Whitespace(index);
      if start == |text| {
        assert text[start..] == "";
        LexNothing();
        return None;
      }
      assert text[start..][0] == text[start];
      if text[start] == '{' {
        r := Object(start, path);
      } else if text[start] == '[' {
        r := Array(start, path);
      } else {
        var t := Lex(text[start..]);
        if t.None? { return None; }
        spans := spans[path := (start, start + t.value.1)];
        r := Some(Read(Leaf(t.value.0), start + t.value.1));
        TokenRead(text[start..]);
      }
    }

    /** A member's key, not one of `seen`, and the offset of its colon. */
    method Key(index: nat, seen: set<seq<int>>) returns (r: Option<(seq<int>, nat)>)
      requires index <= |text|
      ensures r.Some? <==> ParseHead(true, text[index..], seen).Some?
      ensures r.Some? ==>
        var head := ParseHead(true, text[index..], seen).value;
        r.value == (KeyCodes(head.key), index + head.size - 1) && index < r.value.1 < |text|
    {
      hide LexString, Blank, ParseHead, KeyCodes;
      HeadFrom(text, index, seen);
      var key := LexString(text[index..]);
      if key.None? || key.value.0 in seen {
        return None;
      }
      var colon := Whitespace(index + key.value.1);
      if colon == |text| || text[colon] != ':' {
        return None;
      }
      KeyText(text[index..]);
      assert text[index..index + key.value.1] == text[index..][..key.value.1];
      return Some((key.value.0, colon));
    }

    /** One member of the object at `index`, up to the delimiter after it: its key, its value
        and the delimiter's offset. */
    method Member(ghost index: nat, i: nat, result: map<seq<int>, Value>, path: Path, ghost k: nat, ghost before: map<Path, Span>)
        returns (r: Option<(seq<int>, Value, nat)>)
      requires index < i <= |text| && Under(true, text, index, i, path, k, before, spans, Dict(result))
      modifies this`spans
      ensures r.None? ==> Reads(ParseNode(text[index..]), index, path, before, None, spans)
      ensures r.Some? ==>
        var (codes, item, m) := r.value;
        i < m <= |text| && Decided(true, text, index, m, path, k, before, spans, Grown(Dict(result), Name(codes), item))
      decreases |text| - i, 2
    {
      hide Blank, ParseNode, ParseHead, KeyCodes, AddSpans, ValueOf, LexString, Under, Decided, Grown;
      ghost var now := spans;
      ghost var head := ParseHead(true, text[i..], result.Keys);
      var key := Key(i, result.Keys);
      if key.None? {
        Stuck(true, text, index, i, path, k, before, now, Dict(result), spans);
        return None;
      }
      var (codes, colon) := key.value;
      var value := Parse(colon + 1, path + [Name(codes)]);
      if value.None? {
        Stuck(true, text, index, i, path, k, before, now, Dict(result), spans);
        return None;
      }
      ghost var start := EntryStart(text, i, head.value);
      var Read(item, end) := value.value;
      var m := Whitespace(end);
      Round(true, text, index, i, head.value, start, ParseNode(text[start..]).value.0, end, m, path, k, before, now, Dict(result));
      return Some((codes, item, m));
    }

    method Object(index: nat, path: Path) returns (r: Option<Read>)
      requires index < |text| && text[index] == '{'
      modifies this`spans
      ensures Reads(ParseNode(text[index..]), index, path, old(spans), r, spans)
      decreases |text| - index, 0
    {
      hide Blank, ParseNode, Under, Reads;
      var i := Whitespace(index + 1);
      var result: map<seq<int>, Value> := map[];
      if i < |text| && text[i] == '}' {
        StartsEmpty(true, text, index, path, spans);
        return Some(Read(Dict(result), i + 1));
      }
      StartsUnder(true, text, index, path, spans);
      ghost var k: nat := 0;
      while true
        invariant index < i <= |text|
        invariant Under(true, text, index, i, path, k, old(spans), spans, Dict(result))
        decreases |text| - i
      {
        var member := Member(index, i, result, path, k, old(spans));
        if member.None? {
          return None;
        }
        var (codes, item, m) := member.value;
        result := result[codes := item];
        if m < |text| && text[m] == '}' {
          return Some(Read(Dict(result), m + 1));
        }
        if m == |text| || text[m] != ',' {
          return None;
        }
        i := Whitespace(m + 1);
        k := k + 1;
      }
    }

    /** One element of the array at `index`, up to the delimiter after it. */
    method Element(ghost index: nat, i: nat, result: seq<Value>, path: Path, ghost before: map<Path, Span>)
        returns (r: Option<(Value, nat)>)
      requires index < i <= |text| && Under(false, text, index, i, path, |result|, before, spans, List(result))
      modifies this`spans
      ensures r.None? ==> Reads(ParseNode(text[index..]), index, path, before, None, spans)
      ensures r.Some? ==>
        var (item, m) := r.value;
        i < m <= |text| && Decided(false, text, index, m, path, |result|, before, spans, List(result + [item]))
      decreases |text| - i, 2
    {
      hide Blank, ParseNode, KeyCodes, AddSpans, ValueOf, Under, Decided;
      ghost var now := spans;
      ghost var head := HeadText("", "", 0);
      ghost var start := EntryStart(text, i, head);
      var value := Parse(i, path + [Index(|result|)]);
      if value.None? {
        Stuck(false, text, index, i, path, |result|, before, now, List(result), spans);
        return None;
      }
      var Read(item, end) := value.value;
      var m := Whitespace(end);
      Round(false, text, index, i, head, start, ParseNode(text[start..]).value.0, end, m, path, |result|, before, now, List(result));
      return Some((item, m));
    }

    method Array(index: nat, path: Path) returns (r: Option<Read>)
      requires index < |text| && text[index] == '['
      modifies this`spans
      ensures Reads(ParseNode(text[index..]), index, path, old(spans), r, spans)
      decreases |text| - index, 0
    {
      hide Blank, ParseNode, Under, Reads;
      var i := Whitespace(index + 1);
      var result: seq<Value> := [];
      if i < |text| && text[i] == ']' {
        StartsEmpty(false, text, index, path, spans);
        return Some(Read(List(result), i + 1));
      }
      StartsUnder(false, text, index, path, spans);
      while true
        invariant index < i <= |text|
        invariant Under(false, text, index, i, path, |result|, old(spans), spans, List(result))
        decreases |text| - i
      {
        var element := Element(index, i, result, path, old(spans));
        if element.None? {
          return None;
        }
        var (item, m) := element.value;
        result := result + [item];
        if m < |text| && text[m] == ']' {
          return Some(Read(List(result), m + 1));
        }
        if m == |text| || text[m] != ',' {
          return None;
        }
        i := Whitespace(m + 1);
      }
    }
  }

  /** A bracketed node whose entries have all been read, or could not be. */
  lemma BranchRead(braces: bool, text: string, index: nat, first: nat, path: Path, before: map<Path, Span>)
    requires index < |text| && text[index] == Open(braces) && first <= |text|
    requires first == index + 1 + Blank(text[index + 1..]) && (first < |text| ==> text[first] != Close(braces))
    ensures var whole := ParseEntries(braces, text[first..], {});
      && (whole.None? ==> ParseNode(text[index..]).None?)
      && (whole.Some? ==>
        var (e, n) := whole.value;
        Reads(ParseNode(text[index..]), index, path, before,
          Some(Read(Gathered(braces, e, Nothing(braces)), first + n)), AddEntrySpans(braces, e, first, path, 0, before)))
  {
    hide Blank, ParseEntries, ParseNode, AddEntrySpans, Members, Items;
    BranchAt(text, index, braces);
  }

  lemma NothingInside(braces: bool, pad: string, offset: nat, path: Path, now: map<Path, Span>)
    ensures AddSpans(Branch(braces, pad, End), offset, path, now) == now
    ensures ValueOf(Branch(braces, pad, End)) == if braces then Dict(map[]) else List([])
  {
  }

  lemma LexNothing()
    ensures Lex("").None? && ParseNode("").None?
  {
  }

  lemma TokenRead(s: string)
    requires Lex(s).Some?
    ensures TokenValue(s[..Lex(s).value.1]) == Leaf(Lex(s).value.0)
  {
    hide Lex;
    LexLocal(s, "");
    assert s[..Lex(s).value.1] + "" == s[..Lex(s).value.1];
  }
}
