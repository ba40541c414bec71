/** The changelog scanner of `scripts/release_control.py`: fences, comments and code spans are
    tracked line by line, comments are masked in place, and sections are cut from the
    original text (CommonMark 0.31, sections 4.2, 4.5 and 6.1). */
module Changelog {
  import opened Text

  /** How many `c` the text starts with. */
  function Leading(s: string, c: char): (n: nat)
    ensures n <= |s| && (forall i | 0 <= i < n :: s[i] == c) && (n < |s| ==> s[n] != c)
  {
    if s == "" || s[0] != c then 0 else Leading(s[1..], c) + 1
  }

  // ---------------------------------------------------------------- code spans

  /** No run of backticks straddles this offset. */
  predicate Boundary(line: string, i: nat) {
    i <= |line| && (i == |line| || line[i] != '`' || i == 0 || line[i - 1] != '`')
  }

  /** The naive search: the end of the first run of exactly `n` backticks from `i` on. */
  function NextRun(line: string, i: nat, n: nat): (end: Option<nat>)
    ensures end.Some? ==> i < end.value <= |line|
    decreases |line| - i
  {
    if i >= |line| then None
    else if line[i] == '`' then
      var m := Leading(line[i..], '`');
      if m == n then Some(i + m) else NextRun(line, i + m, n)
    else NextRun(line, i + 1, n)
  }

  /** Where the code span that opens at `p` ends, if a run opens there and has a partner. */
  function SpanEnd(line: string, p: nat): (end: Option<nat>)
    ensures end.Some? ==> p < end.value <= |line|
  {
    if p < |line| && line[p] == '`' && Boundary(line, p) then
      var m := Leading(line[p..], '`');
      NextRun(line, p + m, m)
    else None
  }

  /** The maximal runs of backticks from `i` on, as a left-to-right match finds them. */
  function Runs(line: string, i: nat): (runs: seq<(nat, nat)>)
    decreases |line| - i
  {
    if i >= |line| then []
    else if line[i] == '`' then
      var m := Leading(line[i..], '`');
      [(i, i + m)] + Runs(line, i + m)
    else Runs(line, i + 1)
  }

  lemma SpanOpens(line: string, p: nat)
    ensures !(p < |line| && line[p] == '`' && Boundary(line, p)) ==> SpanEnd(line, p).None?
    ensures p < |line| && line[p] == '`' && Boundary(line, p) ==>
      var m := Leading(line[p..], '`');
      SpanEnd(line, p) == NextRun(line, p + m, m)
  {
    hide NextRun, Boundary, Leading;
  }

  lemma RunHere(line: string, i: nat)
    requires i < |line| && line[i] == '`' && Boundary(line, i)
    ensures var e := i + Leading(line[i..], '`');
      && i < e <= |line| && Boundary(line, e) && Runs(line, i) == [(i, e)] + Runs(line, e)
      && (forall n :: NextRun(line, i, n) == if n == e - i then Some(e) else NextRun(line, e, n))
      && (forall p | i < p < e :: SpanEnd(line, p).None?)
  {
    hide SpanEnd;
    var m := Leading(line[i..], '`');
    assert forall p | i <= p < i + m :: line[p] == line[i..][p - i] == '`';
    assert i + m < |line| ==> line[i + m] == line[i..][m];
    forall p | i < p < i + m ensures SpanEnd(line, p).None? {
      SpanOpens(line, p);
    }
  }

  /** The first run decides the naive search and where spans may open. */
  lemma {:induction false} FirstRun(line: string, i: nat)
    requires Boundary(line, i)
    ensures Runs(line, i) == [] ==>
      (forall n :: NextRun(line, i, n).None?) && (forall p | p >= i :: SpanEnd(line, p).None?)
    ensures Runs(line, i) != [] ==>
      var (s, e) := Runs(line, i)[0];
      && i <= s < e <= |line| && Boundary(line, e) && Runs(line, i)[1..] == Runs(line, e)
      && (forall n :: NextRun(line, i, n) == if n == e - s then Some(e) else NextRun(line, e, n))
      && SpanEnd(line, s) == NextRun(line, e, e - s)
      && (forall p | i <= p < e && p != s :: SpanEnd(line, p).None?)
    decreases |line| - i
  {
    hide SpanEnd, Leading, Runs, NextRun;
    if i >= |line| {
      NoRun(line, i);
    } else if line[i] == '`' {
      RunHere(line, i);
      SpanOpens(line, i);
    } else {
      NoRunHere(line, i);
      FirstRun(line, i + 1);
    }
  }

  lemma NoRun(line: string, i: nat)
    requires i >= |line|
    ensures Runs(line, i) == [] && (forall n :: NextRun(line, i, n).None?) && (forall p | p >= i :: SpanEnd(line, p).None?)
  {
    hide SpanEnd, Leading;
    forall p | p >= i ensures SpanEnd(line, p).None? {
      SpanOpens(line, p);
    }
  }

  lemma NoRunHere(line: string, i: nat)
    requires i < |line| && line[i] != '`'
    ensures Runs(line, i) == Runs(line, i + 1) && (forall n :: NextRun(line, i, n) == NextRun(line, i + 1, n))
    ensures SpanEnd(line, i).None?
  {
    hide SpanEnd, Leading;
    SpanOpens(line, i);
  }

  /** `following` knows, from `i` on, the end of the first run of each length. */
  ghost predicate Follows(line: string, i: nat, following: map<nat, nat>) {
    && (forall n :: n in following <==> NextRun(line, i, n).Some?)
    && (forall n | n in following :: NextRun(line, i, n) == Some(following[n]))
  }

  /** `ends` knows the code spans that open from `i` on. */
  ghost predicate SpansKnown(line: string, i: nat, ends: map<nat, nat>) {
    && (forall p :: p in ends <==> p >= i && SpanEnd(line, p).Some?)
    && (forall p | p in ends :: SpanEnd(line, p) == Some(ends[p]))
  }

  lemma OneRunBack(line: string, i: nat, start: nat, end: nat, following: map<nat, nat>, ends: map<nat, nat>)
    requires Boundary(line, i) && Runs(line, i) != [] && Runs(line, i)[0] == (start, end)
    requires Follows(line, end, following) && SpansKnown(line, end, ends)
    ensures i <= start < end && Follows(line, i, following[end - start := end])
    ensures SpansKnown(line, i, if end - start in following then ends[start := following[end - start]] else ends)
  {
    hide NextRun, SpanEnd, Boundary, Runs;
    FirstRun(line, i);
  }

  /** One reverse pass finds, for every run, what the naive forward search finds. */
  method CodeSpanEnds(line: string) returns (ends: map<nat, nat>)
    ensures forall p :: p in ends <==> SpanEnd(line, p).Some?
    ensures forall p | p in ends :: SpanEnd(line, p) == Some(ends[p])
  {
    hide NextRun, SpanEnd, Boundary, Runs, Follows, SpansKnown;
    var runs := Runs(line, 0);
    ghost var froms := RunStarts(line);
    var following: map<nat, nat> := map[];
    ends := map[];
    var k := |runs|;
    NothingFollows(line, froms[k]);
    while k > 0
      invariant 0 <= k <= |runs|
      invariant Follows(line, froms[k], following) && SpansKnown(line, froms[k], ends)
    {
      k := k - 1;
      var (start, end) := runs[k];
      assert runs[k..][0] == runs[k];
      OneRunBack(line, froms[k], start, end, following, ends);
      var length := end - start;
      if length in following {
        ends := ends[start := following[length]];
      }
      following := following[length := end];
    }
    AllClosed(line, ends);
  }

  lemma NothingFollows(line: string, i: nat)
    requires Boundary(line, i) && Runs(line, i) == []
    ensures Follows(line, i, map[]) && SpansKnown(line, i, map[])
  {
    hide NextRun, SpanEnd, Boundary, Runs;
    FirstRun(line, i);
  }

  lemma AllClosed(line: string, ends: map<nat, nat>)
    requires SpansKnown(line, 0, ends)
    ensures (forall p :: p in ends <==> SpanEnd(line, p).Some?) && forall p | p in ends :: SpanEnd(line, p) == Some(ends[p])
  {
    hide SpanEnd;
  }

  /** From where each run and all later ones are found. */
  lemma RunStarts(line: string) returns (froms: seq<nat>)
    ensures |froms| == |Runs(line, 0)| + 1 && froms[0] == 0
    ensures forall k | 0 <= k <= |Runs(line, 0)| :: Boundary(line, froms[k]) && Runs(line, froms[k]) == Runs(line, 0)[k..]
    ensures forall k | 0 <= k < |Runs(line, 0)| :: froms[k + 1] == Runs(line, 0)[k].1
  {
    hide NextRun, SpanEnd, Runs;
    var runs := Runs(line, 0);
    froms := [0];
    assert runs[0..] == runs;
    for j := 0 to |runs|
      invariant |froms| == j + 1 && froms[0] == 0
      invariant forall k | 0 <= k <= j :: Boundary(line, froms[k]) && Runs(line, froms[k]) == runs[k..]
      invariant forall k | 0 <= k < j :: froms[k + 1] == runs[k].1
    {
      FirstRun(line, froms[j]);
      assert runs[j..][0] == runs[j] && runs[j..][1..] == runs[j + 1..];
      froms := froms + [runs[j].1];
    }
  }

  // ---------------------------------------------------------------- comments

  predicate StartsAt(line: string, i: nat, word: string) {
    i + |word| <= |line| && line[i..i + |word|] == word
  }

  /** `line.find(word, i)`. */
  function Find(line: string, i: nat, word: string): (k: Option<nat>)
    ensures k.Some? ==> i <= k.value && StartsAt(line, k.value, word) && forall j | i <= j < k.value :: !StartsAt(line, j, word)
    ensures k.None? ==> forall j | i <= j :: !StartsAt(line, j, word)
    decreases |line| - i
  {
    if i > |line| then None
    else if StartsAt(line, i, word) then Some(i)
    else Find(line, i + 1, word)
  }

  function Blank(s: string): (b: string)
    ensures |b| == |s|
    ensures forall i | 0 <= i < |s| :: b[i] == if s[i] in "\r\n" then s[i] else ' '
  {
    if s == "" then "" else [if s[0] in "\r\n" then s[0] else ' '] + Blank(s[1..])
  }

  /** The next stretch of a line: what shows of it, where it stops, whether a comment goes on. */
  function Piece(line: string, i: nat, comment: bool): (r: (string, nat, bool))
    requires i < |line|
    ensures i < r.1 <= |line| && |r.0| == r.1 - i
  {
    if comment then
      var end := Find(line, i, "-->");
      var stop := if end.None? then |line| else end.value + 3;
      (Blank(line[i..stop]), stop, end.None?)
    else
      var stop :=
        if line[i] == '\\' then (if i + 2 <= |line| then i + 2 else |line|)
        else if SpanEnd(line, i).Some? then SpanEnd(line, i).value
        else i + 1;
      (line[i..stop], stop, false)
  }

  predicate Opens(line: string, i: nat) {
    i < |line| && line[i] != '\\' && SpanEnd(line, i).None? && StartsAt(line, i, "<!--")
  }

  /** What is visible of the line from `i` on, and whether a comment is open at its end. */
  function Mask(line: string, i: nat, comment: bool): (r: (string, bool))
    requires i <= |line|
    ensures |r.0| == |line| - i
    decreases |line| - i, if comment then 0 else 1
  {
    if i == |line| then ("", comment)
    else if !comment && Opens(line, i) then Mask(line, i, true)
    else
      var (here, stop, goesOn) := Piece(line, i, comment);
      var (rest, open) := Mask(line, stop, goesOn);
      (here + rest, open)
  }

  method CommentLine(line: string, open: bool) returns (visible: string, comment: bool)
    ensures (visible, comment) == Mask(line, 0, open)
  {
    hide SpanEnd, Find, Blank, Mask;
    comment := open;
    visible := line;
    var ends := CodeSpanEnds(line);
    var position := 0;
    assert visible[..0] + Mask(line, 0, open).0 == Mask(line, 0, open).0;
    while position < |line|
      invariant |visible| == |line|
      invariant var i := if position < |line| then position else |line|;
        && Mask(line, 0, open) == (visible[..i] + Mask(line, i, comment).0, Mask(line, i, comment).1)
        && visible[i..] == line[i..]
      decreases |line| - position, if comment then 0 else 1
    {
      MaskStep(line, position, comment, visible);
      if comment {
        var end := Find(line, position, "-->");
        var stop := if end.None? then |line| else end.value + 3;
        visible := visible[..position] + Blank(line[position..stop]) + visible[stop..];
        position := stop;
        comment := end.None?;
      } else if line[position] == '\\' {
        position := position + 2;
      } else if position in ends {
        position := ends[position];
      } else if StartsAt(line, position, "<!--") {
        comment := true;
      } else {
        position := position + 1;
      }
    }
    MaskEnd(line, comment);
    assert visible[..|line|] + [] == visible;
  }

  lemma MaskEnd(line: string, comment: bool)
    ensures Mask(line, |line|, comment) == ("", comment)
  {
  }

  lemma MaskStep(line: string, i: nat, comment: bool, visible: string)
    requires i < |line| == |visible| && visible[i..] == line[i..]
    ensures !comment && Opens(line, i) ==> Mask(line, i, comment) == Mask(line, i, true)
    ensures comment || !Opens(line, i) ==>
      var (here, stop, goesOn) := Piece(line, i, comment);
      && visible[..i] + Mask(line, i, comment).0 == (visible[..i] + here) + Mask(line, stop, goesOn).0
      && Mask(line, i, comment).1 == Mask(line, stop, goesOn).1
      && visible[stop..] == line[stop..]
      && (here == line[i..stop] ==> visible[..i] + here == visible[..stop])
  {
    hide Piece, Opens;
    if comment || !Opens(line, i) {
      var (here, stop, goesOn) := Piece(line, i, comment);
      assert visible[stop..] == visible[i..][stop - i..] && line[stop..] == line[i..][stop - i..];
      if here == line[i..stop] {
        assert visible[i..stop] == visible[i..][..stop - i] == line[i..][..stop - i] == line[i..stop];
      }
    }
  }

  /** `k` lies in a comment that is open from `o` on. */
  predicate InComment(line: string, o: nat, k: nat) {
    && o <= k < |line|
    && var end := Find(line, o, "-->");
    && (end.None? || k < end.value + 3)
  }

  /** Masking keeps every other character, and what it masks, which is never a line break, lies
      between a `<!--`, or the start of a line that begins inside a comment, and the first
      `-->` after it. */
  lemma {:induction false} MaskedIsComment(line: string, i: nat, comment: bool, k: nat) returns (o: nat)
    requires i <= k < |line|
    ensures var c := Mask(line, i, comment).0[k - i];
      c != line[k] ==>
        && c == ' ' && line[k] !in "\r\n" && i <= o && InComment(line, o, k)
        && ((comment && o == i) || StartsAt(line, o, "<!--"))
    decreases |line| - i, if comment then 0 else 1
  {
    hide SpanEnd, Find;
    if !comment && Opens(line, i) {
      o := MaskedIsComment(line, i, true, k);
    } else {
      var (here, stop, goesOn) := Piece(line, i, comment);
      var rest := Mask(line, stop, goesOn).0;
      assert Mask(line, i, comment).0 == here + rest;
      if k < stop {
        o := i;
        assert line[i..stop][k - i] == line[k];
      } else {
        assert (here + rest)[k - i] == rest[k - stop];
        o := MaskedIsComment(line, stop, goesOn, k);
        hide Mask, Blank;
        if goesOn { assert false; }
      }
    }
  }

  /** Where comments begin as the line is scanned: at a `<!--` that is neither escaped nor in a
      code span, or at the start of a line that begins inside one. */
  function CommentStarts(line: string, i: nat, comment: bool): (os: set<nat>)
    requires i <= |line|
    ensures forall o | o in os :: i <= o && ((comment && o == i) || Opens(line, o))
    decreases |line| - i, if comment then 0 else 1
  {
    if i == |line| then {}
    else if !comment && Opens(line, i) then CommentStarts(line, i, true)
    else
      var (_, stop, goesOn) := Piece(line, i, comment);
      (if comment then {i} else {}) + CommentStarts(line, stop, goesOn)
  }

  ghost predicate Commented(line: string, i: nat, comment: bool, k: nat)
    requires i <= |line|
  {
    exists o :: o in CommentStarts(line, i, comment) && InComment(line, o, k)
  }

  /** Masking blanks exactly the characters inside comments: each becomes a space unless it is a
      line break, and every other character stays. */
  lemma {:induction false} MaskIsExact(line: string, i: nat, comment: bool, k: nat)
    requires i <= k < |line|
    ensures Mask(line, i, comment).0[k - i] ==
      if Commented(line, i, comment, k) && line[k] !in "\r\n" then ' ' else line[k]
    decreases |line| - i, if comment then 0 else 1
  {
    hide SpanEnd, Find;
    if !comment && Opens(line, i) {
      MaskIsExact(line, i, true, k);
      assert CommentStarts(line, i, comment) == CommentStarts(line, i, true);
    } else {
      var (here, stop, goesOn) := Piece(line, i, comment);
      var (starts, later) := (CommentStarts(line, i, comment), CommentStarts(line, stop, goesOn));
      assert starts == (if comment then {i} else {}) + later;
      assert Mask(line, i, comment).0 == here + Mask(line, stop, goesOn).0;
      if k < stop {
        assert line[i..stop][k - i] == line[k];
        assert comment ==> i in starts && InComment(line, i, k);
      } else {
        assert (here + Mask(line, stop, goesOn).0)[k - i] == Mask(line, stop, goesOn).0[k - stop];
        MaskIsExact(line, stop, goesOn, k);
        assert comment ==> !InComment(line, i, k);
      }
    }
  }

  // ---------------------------------------------------------------- fences and lines

  datatype Fence = Fence(marker: char, length: nat, info: string)

  /** A fence marker after at most three spaces. */
  function FenceOf(line: string): (f: Option<Fence>) {
    var indent := Leading(line, ' ');
    var content := line[indent..];
    if indent > 3 || content == "" || content[0] !in "`~" then None
    else
      var n := Leading(content, content[0]);
      if n < 3 then None else Some(Fence(content[0], n, content[n..]))
  }

  predicate Closes(candidate: Option<Fence>, open: (char, nat)) {
    && candidate.Some?
    && candidate.value.marker == open.0 && candidate.value.length >= open.1
    && forall c | c in candidate.value.info :: c in " \t\r\n"
  }

  predicate OpensFence(candidate: Option<Fence>) {
    candidate.Some? && (candidate.value.marker == '~' || '`' !in candidate.value.info)
  }

  predicate Indented(line: string) { StartsAt(line, 0, "    ") || StartsAt(line, 0, "\t") }

  /** Between two lines: the open fence and whether a comment is open. */
  datatype State = State(fence: Option<(char, nat)>, comment: bool)

  datatype Scanned = Scanned(line: string, heading: bool, guidance: bool)

  function ScanLine(line: string, s: State): (r: (Scanned, State))
    ensures |r.0.line| == |line|
  {
    var candidate := FenceOf(line);
    if s.fence.Some? then
      var closes := Closes(candidate, s.fence.value);
      (Scanned(line, false, !closes), if closes then s.(fence := None) else s)
    else if !s.comment && OpensFence(candidate) then
      (Scanned(line, false, false), s.(fence := Some((candidate.value.marker, candidate.value.length))))
    else if !s.comment && Indented(line) then (Scanned(line, false, true), s)
    else
      var (visible, comment) := Mask(line, 0, s.comment);
      (Scanned(visible, true, true), s.(comment := comment))
  }

  const START := State(None, false)

  function StateAt(lines: seq<string>, k: nat): (s: State)
    requires k <= |lines|
  {
    if k == 0 then START else ScanLine(lines[k - 1], StateAt(lines, k - 1)).1
  }

  /** Line `k` as the scanner yields it. */
  function Shown(lines: seq<string>, k: nat): (s: Scanned)
    requires k < |lines|
    ensures |s.line| == |lines[k]|
  {
    ScanLine(lines[k], StateAt(lines, k)).0
  }

  /** The lines of a text with their line feeds. */
  function Lines(text: string): (lines: seq<string>) {
    if text == "" then []
    else
      var n := LineLength(text);
      [text[..n]] + Lines(text[n..])
  }

  function LineLength(text: string): (n: nat)
    requires text != ""
    ensures 0 < n <= |text|
  {
    if text[0] == '\n' || |text| == 1 then 1 else LineLength(text[1..]) + 1
  }

  /** Where line `k` starts in the text. */
  function Offset(lines: seq<string>, k: nat): (n: nat)
    requires k <= |lines|
  {
    if k == 0 then 0 else Offset(lines, k - 1) + |lines[k - 1]|
  }

  lemma {:induction false} OffsetsShift(lines: seq<string>, k: nat)
    requires 0 < |lines| && k < |lines|
    ensures Offset(lines, k + 1) == |lines[0]| + Offset(lines[1..], k)
  {
    if k > 0 {
      OffsetsShift(lines, k - 1);
    }
  }

  lemma {:induction false} LinesEnd(text: string)
    ensures Offset(Lines(text), |Lines(text)|) == |text|
    decreases |text|
  {
    if text != "" {
      var n := LineLength(text);
      var rest := Lines(text[n..]);
      LinesEnd(text[n..]);
      hide Lines;
      assert Lines(text) == [text[..n]] + rest by { LinesSplit(text); }
      OffsetsShift(Lines(text), |rest|);
      assert Lines(text)[1..] == rest;
    }
  }

  lemma LinesSplit(text: string)
    requires text != ""
    ensures Lines(text) == [text[..LineLength(text)]] + Lines(text[LineLength(text)..])
  {
  }

  lemma SliceOfRest(text: string, n: nat, a: nat, b: nat)
    requires a <= b && n + b <= |text|
    ensures text[n..][a..b] == text[n + a..n + b]
  {
  }

  /** The lines tile the text: line `k` is what lies between its offsets. */
  lemma {:induction false} LineAt(text: string, k: nat)
    requires k < |Lines(text)|
    ensures var (a, b) := (Offset(Lines(text), k), Offset(Lines(text), k + 1));
      a < b <= |text| && text[a..b] == Lines(text)[k]
    decreases |text|
  {
    var n := LineLength(text);
    var (lines, rest) := (Lines(text), Lines(text[n..]));
    LinesSplit(text);
    hide Lines, LineLength;
    assert lines[1..] == rest && lines[0] == text[..n];
    OffsetsShift(lines, k);
    if k > 0 {
      OffsetsShift(lines, k - 1);
      LineAt(text[n..], k - 1);
      var (a, b) := (Offset(rest, k - 1), Offset(rest, k));
      SliceOfRest(text, n, a, b);
    }
  }

  method ReleaseLines(text: string) returns (out: seq<Scanned>)
    ensures |out| == |Lines(text)| && forall k | 0 <= k < |out| :: out[k] == Shown(Lines(text), k)
  {
    hide Lines, FenceOf, Mask;
    out := [];
    var lines := Lines(text);
    var fence: Option<(char, nat)>, comment := None, false;
    for k := 0 to |lines|
      invariant |out| == k && forall j | 0 <= j < k :: out[j] == Shown(lines, j)
      invariant State(fence, comment) == StateAt(lines, k)
    {
      var line := lines[k];
      var candidate := FenceOf(line);
      if fence.Some? {
        var closes := Closes(candidate, fence.value);
        out := out + [Scanned(line, false, !closes)];
        if closes {
          fence := None;
        }
      } else if !comment && OpensFence(candidate) {
        fence := Some((candidate.value.marker, candidate.value.length));
        out := out + [Scanned(line, false, false)];
      } else if !comment && Indented(line) {
        out := out + [Scanned(line, false, true)];
      } else {
        var visible;
        visible, comment := CommentLine(line, comment);
        out := out + [Scanned(visible, true, true)];
      }
    }
  }

  // ---------------------------------------------------------------- headings

  function TrimLeft(s: string, cs: string): (t: string) {
    if s == "" || s[0] !in cs then s else TrimLeft(s[1..], cs)
  }

  function TrimRight(s: string, cs: string): (t: string) {
    if s == "" || s[|s| - 1] !in cs then s else TrimRight(s[..|s| - 1], cs)
  }

  /** The heading text without a closing run of hashes. */
  function Title(content: string): (title: string) {
    var title := TrimRight(TrimLeft(content, " \t\r\n"), " \t\r\n");
    var before := TrimRight(title, "#");
    if before == "" || before[|before| - 1] in " \t" then TrimRight(before, " \t") else title
  }

  datatype Heading = Heading(level: nat, title: string, offset: nat, end: nat)

  function Indent(line: string): (n: nat)
    ensures n <= |line|
  {
    if Leading(line, ' ') <= 3 then Leading(line, ' ') else 0
  }

  function HeadingOf(s: Scanned, offset: nat): (h: Option<Heading>)
    ensures h.Some? ==> h.value.offset == offset && h.value.end == offset + |s.line| && 1 <= h.value.level <= 6
  {
    var heading := s.line[Indent(s.line)..];
    var level := Leading(heading, '#');
    if s.heading && 1 <= level <= 6 && (level == |heading| || heading[level] in " \t\r\n") then
      Some(Heading(level, Title(heading[level..]), offset, offset + |s.line|))
    else None
  }

  /** The headings of the first `k` lines. */
  function HeadingsTo(lines: seq<string>, k: nat): (hs: seq<Heading>)
    requires k <= |lines|
  {
    if k == 0 then []
    else
      var h := HeadingOf(Shown(lines, k - 1), Offset(lines, k - 1));
      HeadingsTo(lines, k - 1) + (if h.Some? then [h.value] else [])
  }

  function Headings(text: string): (hs: seq<Heading>) { HeadingsTo(Lines(text), |Lines(text)|) }

  method ReleaseHeadings(text: string) returns (headings: seq<Heading>)
    ensures headings == Headings(text)
  {
    hide Lines, HeadingOf, Shown;
    headings := [];
    var offset := 0;
    var out := ReleaseLines(text);
    for k := 0 to |out|
      invariant headings == HeadingsTo(Lines(text), k) && offset == Offset(Lines(text), k)
    {
      var h := HeadingOf(out[k], offset);
      if h.Some? {
        headings := headings + [h.value];
      }
      offset := offset + |out[k].line|;
    }
  }

  /** Each heading is one line of the text, found outside any fence. */
  lemma {:induction false} HeadingHasLine(lines: seq<string>, n: nat, i: nat) returns (k: nat)
    requires n <= |lines| && i < |HeadingsTo(lines, n)|
    ensures k < n && HeadingOf(Shown(lines, k), Offset(lines, k)) == Some(HeadingsTo(lines, n)[i])
    ensures HeadingsTo(lines, n)[i].offset == Offset(lines, k) && HeadingsTo(lines, n)[i].end == Offset(lines, k + 1)
    ensures StateAt(lines, k).fence.None?
  {
    hide ScanLine, HeadingOf;
    if i < |HeadingsTo(lines, n - 1)| {
      k := HeadingHasLine(lines, n - 1, i);
    } else {
      k := n - 1;
      HeadingOutsideFence(lines[k], StateAt(lines, k), Offset(lines, k));
    }
  }

  lemma HeadingOutsideFence(line: string, s: State, offset: nat)
    requires HeadingOf(ScanLine(line, s).0, offset).Some?
    ensures s.fence.None? && ScanLine(line, s).0.heading
    ensures s.comment || !(OpensFence(FenceOf(line)) || Indented(line))
    ensures ScanLine(line, s).0.line == Mask(line, 0, s.comment).0
  {
    hide Mask, FenceOf, Title, Indent;
  }

  lemma {:induction false} OffsetsGrow(lines: seq<string>, i: nat, k: nat)
    requires i <= k <= |lines|
    ensures Offset(lines, i) <= Offset(lines, k)
    decreases k
  {
    if i < k { OffsetsGrow(lines, i, k - 1); }
  }

  /** Headings come in order and do not overlap. */
  lemma {:induction false} HeadingsInOrder(lines: seq<string>, n: nat, i: nat, j: nat)
    requires n <= |lines| && i < j < |HeadingsTo(lines, n)|
    ensures HeadingsTo(lines, n)[i].offset < HeadingsTo(lines, n)[i].end <= HeadingsTo(lines, n)[j].offset
    decreases n
  {
    hide HeadingOf, Shown;
    if j < |HeadingsTo(lines, n - 1)| {
      HeadingsInOrder(lines, n - 1, i, j);
    } else {
      var k := HeadingHasLine(lines, n - 1, i);
      OffsetsGrow(lines, k + 1, n - 1);
      LineNotEmpty(Shown(lines, k), Offset(lines, k));
    }
  }

  lemma LineNotEmpty(s: Scanned, offset: nat)
    requires HeadingOf(s, offset).Some?
    ensures s.line != ""
  {
    hide Title;
  }

  // ---------------------------------------------------------------- where a heading really is

  lemma MaskPiece(line: string, i: nat, comment: bool)
    requires i < |line| && (comment || !Opens(line, i))
    ensures var (here, stop, goesOn) := Piece(line, i, comment);
      Mask(line, i, comment) == (here + Mask(line, stop, goesOn).0, Mask(line, stop, goesOn).1)
  {
    hide Piece, Opens;
  }

  lemma {:induction false} SpacesShow(line: string, j: nat)
    requires j <= |line| && forall t | 0 <= t < j :: line[t] == ' '
    ensures Mask(line, 0, false).0 == line[..j] + Mask(line, j, false).0
  {
    hide NextRun, Mask;
    if j > 0 {
      SpacesShow(line, j - 1);
      MaskPiece(line, j - 1, false);
      assert Piece(line, j - 1, false) == (line[j - 1..j], j, false);
      assert line[..j] == line[..j - 1] + line[j - 1..j];
    } else {
      assert line[..0] == [];
    }
  }

  /** A comment that opens on a line hides at least its own four characters. */
  lemma CommentHides(line: string, j: nat)
    requires Opens(line, j)
    ensures j + 4 <= |line| && forall t | 0 <= t < 4 :: Mask(line, j, false).0[t] == ' '
  {
    hide SpanEnd, Find;
    OpenerText(line, j);
    assert Mask(line, j, false) == Mask(line, j, true);
    hide Mask, Opens;
    MaskPiece(line, j, true);
    var stop := Piece(line, j, true).1;
    assert forall t | 0 <= t < 4 :: line[j..stop][t] == line[j + t];
  }

  /** A comment cannot close before the second hyphen of its opening. */
  lemma OpenerText(line: string, j: nat)
    requires StartsAt(line, j, "<!--")
    ensures line[j] == '<' && line[j + 1] == '!' && line[j + 2] == '-' && line[j + 3] == '-'
    ensures Find(line, j, "-->").Some? ==> Find(line, j, "-->").value >= j + 2
  {
    assert line[j..j + 4] == "<!--";
    assert line[j..j + 4][0] == line[j] && line[j..j + 4][1] == line[j + 1] && line[j..j + 4][2] == line[j + 2] && line[j..j + 4][3] == line[j + 3];
    NotStarting(line, j, "-->", 0);
    NotStarting(line, j + 1, "-->", 0);
  }

  /** A line whose first visible column opens a comment cannot be a heading's. */
  lemma TooWide(line: string, j: nat)
    requires Opens(line, j) && j <= 3 && forall t | 0 <= t < j :: line[t] == ' '
    ensures Indent(Mask(line, 0, false).0) == 0
  {
    SpacesShow(line, j);
    CommentHides(line, j);
    hide Mask;
    var v := Mask(line, 0, false).0;
    assert forall t | 0 <= t < 4 :: v[j + t] == Mask(line, j, false).0[t];
    assert forall t | 0 <= t < 4 :: t >= j ==> v[t] == v[j + (t - j)];
    assert Leading(v, ' ') > 3;
  }

  lemma IndentIsReal(line: string, j: nat)
    requires j < Indent(Mask(line, 0, false).0)
    ensures forall t | 0 <= t <= j :: line[t] == ' '
    decreases j
  {
    hide Mask;
    var v := Mask(line, 0, false).0;
    if j > 0 { IndentIsReal(line, j - 1); }
    SpacesShow(line, j);
    assert v[j] == ' ';
    assert v[j] == Mask(line, j, false).0[0];
    if Opens(line, j) {
      TooWide(line, j);
      assert false;
    } else {
      hide SpanEnd;
      MaskPiece(line, j, false);
    }
  }

  /** On a line that starts inside a comment, nothing shows before the comment's end. */
  lemma NothingBeforeEnd(line: string, k: nat)
    requires k < |line| && Mask(line, 0, true).0[k] == '#'
    ensures Find(line, 0, "-->").Some? && k >= Find(line, 0, "-->").value + 3
  {
    hide SpanEnd, Find, Mask;
    MaskPiece(line, 0, true);
    var (here, stop, goesOn) := Piece(line, 0, true);
    if k < stop {
      HashHides(line[0..stop], k);
    }
  }

  lemma HashHides(s: string, k: nat)
    requires k < |s|
    ensures Blank(s)[k] != '#'
  {
  }

  /** The hashes of a heading are the original text's own, after at most three columns. These
      are spaces, unless the line starts inside a comment: then they are its closing `-->`. */
  lemma HeadingMarks(line: string, s: State, offset: nat)
    requires HeadingOf(ScanLine(line, s).0, offset).Some?
    ensures var h := HeadingOf(ScanLine(line, s).0, offset).value;
      var indent := Indent(ScanLine(line, s).0.line);
      && indent <= 3 && indent + h.level <= |line|
      && (forall t | indent <= t < indent + h.level :: line[t] == '#')
      && (if s.comment then StartsAt(line, 0, "-->") && indent == 3 else forall t | 0 <= t < indent :: line[t] == ' ')
  {
    hide Mask, FenceOf, Title;
    HeadingOutsideFence(line, s, offset);
    var h := HeadingOf(ScanLine(line, s).0, offset).value;
    var v := Mask(line, 0, s.comment).0;
    var indent := Indent(v);
    forall t | indent <= t < indent + h.level ensures line[t] == '#' {
      assert v[indent..][t - indent] == '#';
      var _ := MaskedIsComment(line, 0, s.comment, t);
    }
    if s.comment {
      assert v[indent] == v[indent..][0] == '#';
      NothingBeforeEnd(line, indent);
    } else if indent > 0 {
      IndentIsReal(line, indent - 1);
    }
  }

  /** Every heading: its line, and its hashes in the original text outside fences and comments. */
  lemma HeadingsAreReal(text: string, i: nat) returns (k: nat, indent: nat)
    requires i < |Headings(text)|
    ensures k < |Lines(text)| && StateAt(Lines(text), k).fence.None?
    ensures var h := Headings(text)[i];
      && h.offset == Offset(Lines(text), k) && h.end == Offset(Lines(text), k + 1) <= |text|
      && indent <= 3 && h.offset + indent + h.level <= h.end
      && (forall t | h.offset + indent <= t < h.offset + indent + h.level :: text[t] == '#')
      && (if StateAt(Lines(text), k).comment then indent == 3 && text[h.offset..h.offset + 3] == "-->"
          else forall t | h.offset <= t < h.offset + indent :: text[t] == ' ')
  {
    hide HeadingOf, ScanLine, Lines;
    var lines := Lines(text);
    k := HeadingHasLine(lines, |lines|, i);
    LineAt(text, k);
    var h := Headings(text)[i];
    HeadingMarks(lines[k], StateAt(lines, k), Offset(lines, k));
    indent := Indent(Shown(lines, k).line);
    var line := text[h.offset..h.end];
    assert forall t | h.offset <= t < h.end :: text[t] == line[t - h.offset];
    if StateAt(lines, k).comment {
      assert line[0..3] == text[h.offset..h.offset + 3];
    }
  }

  /** A comment's end followed at once by a heading's hashes. */
  predicate EndsIntoHeading(line: string) {
    && StartsAt(line, 0, "-->")
    && var n := Leading(line[3..], '#');
    && 1 <= n <= 6
    && (3 + n == |line| || line[3 + n] in " \t\r\n" || StartsAt(line, 3 + n, "<!--"))
  }

  lemma OneMore(line: string, i: nat, k: nat, rest: string)
    requires i < k <= |line|
    ensures line[i..k] + rest == line[i..i + 1] + (line[i + 1..k] + rest)
  {
  }

  lemma PlainShows(line: string, i: nat)
    requires i < |line| && line[i] != '`' && line[i] != '<' && line[i] != '\\'
    ensures !Opens(line, i) && Piece(line, i, false) == (line[i..i + 1], i + 1, false)
  {
    hide NextRun;
    NotStarting(line, i, "<!--", 0);
  }

  lemma {:induction false} HashesShow(line: string, i: nat, n: nat)
    requires i + n <= |line| && forall t | i <= t < i + n :: line[t] == '#'
    ensures Mask(line, i, false).0 == line[i..i + n] + Mask(line, i + n, false).0
    decreases n
  {
    hide Mask, Piece, Opens;
    var rest := Mask(line, i + n, false).0;
    if n > 0 {
      PlainShows(line, i);
      MaskPiece(line, i, false);
      HashesShow(line, i + 1, n - 1);
      OneMore(line, i, i + n, rest);
    } else {
      assert line[i..i] + rest == rest;
    }
  }

  /** A character that can follow a heading's hashes shows as a delimiter, or opens a comment. */
  lemma DelimiterShows(line: string, i: nat)
    requires i < |line| && line[i] != '#'
    ensures Mask(line, i, false).0[0] in " \t\r\n" <==> line[i] in " \t\r\n" || StartsAt(line, i, "<!--")
    ensures Mask(line, i, false).0[0] != '#'
  {
    var o := MaskedIsComment(line, i, false, i);
    if StartsAt(line, i, "<!--") {
      OpenerText(line, i);
      assert Opens(line, i) by { hide NextRun; }
      CommentHides(line, i);
    }
  }

  /** What shows of a line whose comment ends in its first three characters. */
  lemma ClosedLineShows(line: string)
    requires StartsAt(line, 0, "-->")
    ensures var n := Leading(line[3..], '#');
      Mask(line, 0, true).0 == "   " + (line[3..3 + n] + Mask(line, 3 + n, false).0)
  {
    hide Mask;
    var n := Leading(line[3..], '#');
    assert Find(line, 0, "-->") == Some(0);
    assert line[0..3] == "-->" && Blank("-->") == "   ";
    MaskPiece(line, 0, true);
    assert forall t | 3 <= t < 3 + n :: line[t] == line[3..][t - 3];
    HashesShow(line, 3, n);
  }

  /** Inside a comment, a line makes a heading exactly if it ends the comment into one. */
  lemma HeadingInComment(line: string, offset: nat)
    ensures HeadingOf(ScanLine(line, State(None, true)).0, offset).Some? <==> EndsIntoHeading(line)
  {
    hide FenceOf, Title, Mask;
    var s := ScanLine(line, State(None, true)).0;
    if HeadingOf(s, offset).Some? {
      HeadingMarks(line, State(None, true), offset);
    }
    if StartsAt(line, 0, "-->") {
      var n := Leading(line[3..], '#');
      ClosedLineShows(line);
      var v := s.line;
      assert v == Mask(line, 0, true).0;
      if n > 0 {
        assert line[3] == line[3..][0] == '#';
        var shown := line[3..3 + n] + Mask(line, 3 + n, false).0;
        assert v == "   " + shown && shown[0] == line[3];
        assert v[3] == shown[0] && v[3..] == shown;
        LeadingIs(v, ' ', 3);
        AfterHashes(line, n, shown);
      } else {
        assert !EndsIntoHeading(line);
      }
    }
  }

  lemma AfterHashes(line: string, n: nat, heading: string)
    requires 3 + n <= |line| && n == Leading(line[3..], '#') > 0
    requires heading == line[3..3 + n] + Mask(line, 3 + n, false).0
    ensures Leading(heading, '#') == n
    ensures (n == |heading| || heading[n] in " \t\r\n") <==>
      (3 + n == |line| || line[3 + n] in " \t\r\n" || StartsAt(line, 3 + n, "<!--"))
  {
    hide Mask;
    assert forall t | 0 <= t < n :: heading[t] == line[3..][t];
    if 3 + n < |line| {
      assert line[3 + n] == line[3..][n];
      DelimiterShows(line, 3 + n);
      assert heading[n] == Mask(line, 3 + n, false).0[0];
      LeadingIs(heading, '#', n);
    } else {
      AllLeading(heading, '#');
    }
  }

  lemma AllLeading(s: string, c: char)
    requires forall t | 0 <= t < |s| :: s[t] == c
    ensures Leading(s, c) == |s|
  {
  }

  /** A fence is never open inside a comment. */
  lemma {:induction false} CommentHasNoFence(lines: seq<string>, k: nat)
    requires k <= |lines| && StateAt(lines, k).comment
    ensures StateAt(lines, k) == State(None, true)
  {
    hide Mask, FenceOf;
    if k > 0 && StateAt(lines, k - 1).comment {
      CommentHasNoFence(lines, k - 1);
    }
  }

  /** A heading whose line begins inside a comment. */
  ghost predicate InsideComment(text: string, h: Heading) {
    exists k :: 0 <= k < |Lines(text)| && h.offset == Offset(Lines(text), k) && StateAt(Lines(text), k).comment
  }

  /** A text has a heading inside a comment exactly if one of its lines begins inside a comment
      and ends it into a heading. */
  lemma HeadingsInsideComments(text: string)
    ensures (exists h :: h in Headings(text) && InsideComment(text, h)) <==>
      exists k :: 0 <= k < |Lines(text)| && StateAt(Lines(text), k).comment && EndsIntoHeading(Lines(text)[k])
  {
    hide Lines, ScanLine, HeadingOf, StateAt, EndsIntoHeading, InsideComment;
    var lines := Lines(text);
    if h :| h in Headings(text) && InsideComment(text, h) {
      var i :| 0 <= i < |Headings(text)| && Headings(text)[i] == h;
      var k := HeadingHasLine(lines, |lines|, i);
      LineInside(text, h, k);
      CommentHasNoFence(lines, k);
      HeadingInComment(lines[k], Offset(lines, k));
    }
    if k :| 0 <= k < |lines| && StateAt(lines, k).comment && EndsIntoHeading(lines[k]) {
      CommentHasNoFence(lines, k);
      HeadingInComment(lines[k], Offset(lines, k));
      var h := HeadingIsListed(lines, |lines|, k);
      IsInside(text, h, k);
    }
  }

  lemma IsInside(text: string, h: Heading, k: nat)
    requires k < |Lines(text)| && h.offset == Offset(Lines(text), k) && StateAt(Lines(text), k).comment
    ensures InsideComment(text, h)
  {
  }

  /** Offsets tell lines apart, so a heading inside a comment is on a line that begins there. */
  lemma LineInside(text: string, h: Heading, k: nat)
    requires InsideComment(text, h) && k < |Lines(text)| && h.offset == Offset(Lines(text), k)
    ensures StateAt(Lines(text), k).comment
  {
    hide Lines, StateAt;
    var lines := Lines(text);
    var j :| 0 <= j < |lines| && h.offset == Offset(lines, j) && StateAt(lines, j).comment;
    LineAt(text, j);
    LineAt(text, k);
    if j < k {
      OffsetsGrow(lines, j + 1, k);
    } else if k < j {
      OffsetsGrow(lines, k + 1, j);
    }
  }

  lemma {:induction false} HeadingIsListed(lines: seq<string>, n: nat, k: nat) returns (h: Heading)
    requires k < n <= |lines| && HeadingOf(Shown(lines, k), Offset(lines, k)).Some?
    ensures h in HeadingsTo(lines, n) && h.offset == Offset(lines, k)
  {
    hide HeadingOf, Shown;
    if k < n - 1 {
      h := HeadingIsListed(lines, n - 1, k);
    } else {
      h := HeadingOf(Shown(lines, k), Offset(lines, k)).value;
    }
  }

  /** The second case happens: this text's heading starts inside its comment. */
  lemma HeadingAfterCommentEnd()
    ensures var text := "<!--\n--># T\n";
      && StateAt(Lines(text), 1).comment
      && |Headings(text)| == 1 && Headings(text)[0].offset == Offset(Lines(text), 1) == 5
  {
    hide Lines, ScanLine, HeadingOf, Offset;
    var text := "<!--\n--># T\n";
    var lines := ["<!--\n", "--># T\n"];
    TwoLines();
    FirstLineNoHeading(lines);
    SecondLineHeading(lines[1]);
    FiveIn(lines);
    assert StateAt(lines, 0) == START;
    assert HeadingsTo(lines, 2) == HeadingsTo(lines, 1) + [HeadingOf(Shown(lines, 1), 5).value];
  }

  lemma FiveIn(lines: seq<string>)
    requires |lines| == 2 && |lines[0]| == 5
    ensures Offset(lines, 1) == 5
  {
  }

  lemma LinesJoin(line: string, rest: string)
    requires line != "" && line[|line| - 1] == '\n' && forall t | 0 <= t < |line| - 1 :: line[t] != '\n'
    ensures Lines(line + rest) == [line] + Lines(rest)
  {
    LineLengthIs(line, rest);
    hide LineLength;
    LinesSplit(line + rest);
    assert (line + rest)[..|line|] == line && (line + rest)[|line|..] == rest;
  }

  lemma TwoLines()
    ensures Lines("<!--\n--># T\n") == ["<!--\n", "--># T\n"]
  {
    hide Lines;
    assert "<!--\n--># T\n" == "<!--\n" + "--># T\n";
    LinesJoin("<!--\n", "--># T\n");
    assert "--># T\n" + "" == "--># T\n";
    LinesJoin("--># T\n", "");
    NoLines();
  }

  lemma NoLines()
    ensures Lines("") == []
  {
  }

  lemma SecondLineHeading(line: string)
    requires line == "--># T\n"
    ensures HeadingOf(ScanLine(line, State(None, true)).0, 5).Some?
    ensures HeadingOf(ScanLine(line, State(None, true)).0, 5).value.offset == 5
  {
    ClosingLine();
    hide Mask, Title, Leading, FenceOf;
    var v := "   # T\n";
    assert ScanLine(line, State(None, true)).0 == Scanned(v, true, true);
    LeadingIs(v, ' ', 3);
    assert v[3..] == "# T\n";
    LeadingIs("# T\n", '#', 1);
    assert Indent(v) == 3;
  }

  lemma LeadingIs(s: string, c: char, n: nat)
    requires n < |s| && (forall t | 0 <= t < n :: s[t] == c) && s[n] != c
    ensures Leading(s, c) == n
  {
  }

  lemma FirstLineNoHeading(lines: seq<string>)
    requires |lines| == 2 && lines[0] == "<!--\n"
    ensures HeadingsTo(lines, 1) == [] && StateAt(lines, 1) == State(None, true)
  {
    hide ScanLine, HeadingOf;
    OpeningScans();
    BlankIsNoHeading();
    assert StateAt(lines, 0) == START;
    assert Shown(lines, 0) == Scanned("    \n", true, true);
    assert HeadingsTo(lines, 0) == [];
  }

  lemma OpeningScans()
    ensures ScanLine("<!--\n", START) == (Scanned("    \n", true, true), State(None, true))
  {
    hide Mask;
    var line := "<!--\n";
    OpeningLine();
    assert line[0..] == line;
    NotStarting(line, 0, "    ", 0);
    NotStarting(line, 0, "\t", 0);
    assert FenceOf(line).None? && !Indented(line);
    hide FenceOf, Indented;
  }

  lemma BlankIsNoHeading()
    ensures HeadingOf(Scanned("    \n", true, true), 0).None?
  {
    hide Title;
    var v := "    \n";
    LeadingIs(v, ' ', 4);
    assert v[0..] == v;
    LeadingIs(v, '#', 0);
  }

  lemma LineLengthIs(line: string, rest: string)
    requires line != "" && line[|line| - 1] == '\n' && forall t | 0 <= t < |line| - 1 :: line[t] != '\n'
    ensures LineLength(line + rest) == |line|
  {
    if |line| > 1 {
      LineLengthIs(line[1..], rest);
      assert (line + rest)[1..] == line[1..] + rest;
    }
  }

  lemma NotStarting(line: string, i: nat, word: string, t: nat)
    requires t < |word| && i + t < |line| && line[i + t] != word[t]
    ensures !StartsAt(line, i, word)
  {
    assert i + |word| <= |line| ==> line[i..i + |word|][t] == line[i + t];
  }

  lemma NoEndYet()
    ensures Find("<!--\n", 0, "-->").None?
  {
    var line := "<!--\n";
    NotStarting(line, 0, "-->", 0);
    NotStarting(line, 1, "-->", 0);
    NotStarting(line, 2, "-->", 2);
    assert forall i :: !StartsAt(line, i, "-->");
  }

  lemma OpeningLine()
    ensures Mask("<!--\n", 0, false) == ("    \n", true)
  {
    var line := "<!--\n";
    CommentOpens();
    assert Mask(line, 0, false) == Mask(line, 0, true);
    hide Mask, Opens, Piece;
    CommentPiece();
    MaskPiece(line, 0, true);
    MaskEnd(line, true);
    assert "    \n" + "" == "    \n";
  }

  lemma CommentOpens()
    ensures Opens("<!--\n", 0)
  {
    hide NextRun;
    var line := "<!--\n";
    assert line[0..4] == "<!--";
  }

  lemma CommentPiece()
    ensures Piece("<!--\n", 0, true) == ("    \n", 5, true)
  {
    hide Find;
    var line := "<!--\n";
    NoEndYet();
    assert line[0..5] == line;
    assert Blank(line) == "    \n";
  }

  lemma ClosingLine()
    ensures Mask("--># T\n", 0, true) == ("   # T\n", false)
  {
    hide Mask, Piece;
    var line := "--># T\n";
    ClosingPiece();
    MaskPiece(line, 0, true);
    PlainTail(line, 3);
    assert "   " + line[3..] == "   # T\n";
  }

  lemma ClosingPiece()
    ensures Piece("--># T\n", 0, true) == ("   ", 3, false)
  {
    var line := "--># T\n";
    assert line[0..3] == "-->" && StartsAt(line, 0, "-->");
    assert Find(line, 0, "-->") == Some(0);
    assert Blank("-->") == "   ";
  }

  /** Text without markup shows as it is. */
  lemma {:induction false} PlainTail(line: string, i: nat)
    requires i <= |line| && forall t | i <= t < |line| :: line[t] != '`' && line[t] != '<' && line[t] != '\\'
    ensures Mask(line, i, false) == (line[i..], false)
    decreases |line| - i
  {
    hide Mask, Piece, Opens;
    if i < |line| {
      PlainTail(line, i + 1);
      PlainShows(line, i);
      MaskPiece(line, i, false);
      assert line[i..] == line[i..i + 1] + line[i + 1..];
    } else {
      MaskEnd(line, false);
    }
  }

  // ---------------------------------------------------------------- sections

  datatype Section = Section(title: string, start: nat, end: nat)

  /** The headings that end a section of the given level. */
  function Dividing(hs: seq<Heading>, level: nat): (ds: seq<Heading>)
    ensures forall d | d in ds :: d.level <= level && d in hs
    ensures forall h | h in hs && h.level <= level :: h in ds
  {
    if hs == [] then []
    else Dividing(hs[..|hs| - 1], level) + (if hs[|hs| - 1].level <= level then [hs[|hs| - 1]] else [])
  }

  function EndOf(ds: seq<Heading>, index: nat, length: nat): (end: nat)
    requires index < |ds|
  {
    if index + 1 < |ds| then ds[index + 1].offset else length
  }

  function SectionsTo(ds: seq<Heading>, level: nat, n: nat, length: nat): (ss: seq<Section>)
    requires n <= |ds|
  {
    if n == 0 then []
    else
      SectionsTo(ds, level, n - 1, length)
        + (if ds[n - 1].level == level then [Section(ds[n - 1].title, ds[n - 1].end, EndOf(ds, n - 1, length))] else [])
  }

  function Sections(text: string, level: nat): (ss: seq<Section>) {
    var ds := Dividing(Headings(text), level);
    SectionsTo(ds, level, |ds|, |text|)
  }

  lemma NoneDividing(level: nat)
    ensures Dividing([], level) == []
  {
  }

  lemma DividingStep(hs: seq<Heading>, k: nat, level: nat)
    requires k < |hs|
    ensures Dividing(hs[..k + 1], level) == Dividing(hs[..k], level) + (if hs[k].level <= level then [hs[k]] else [])
  {
    assert hs[..k + 1][..k] == hs[..k];
  }

  method ReleaseSections(text: string, level: nat) returns (sections: seq<Section>)
    ensures sections == Sections(text, level)
  {
    hide Headings, Dividing;
    var all := ReleaseHeadings(text);
    var headings := [];
    assert Dividing(all[..0], level) == [] by { NoneDividing(level); }
    for k := 0 to |all|
      invariant headings == Dividing(all[..k], level)
    {
      DividingStep(all, k, level);
      if all[k].level <= level {
        headings := headings + [all[k]];
      }
    }
    assert all[..|all|] == all;
    sections := [];
    for index := 0 to |headings|
      invariant sections == SectionsTo(headings, level, index, |text|)
    {
      if headings[index].level == level {
        var end := if index + 1 < |headings| then headings[index + 1].offset else |text|;
        sections := sections + [Section(headings[index].title, headings[index].end, end)];
      }
    }
  }

  predicate InOrder(hs: seq<Heading>, length: nat) {
    && (forall h | h in hs :: h.offset < h.end <= length)
    && (forall i, j | 0 <= i < j < |hs| :: hs[i].end <= hs[j].offset)
  }

  lemma TextHeadingsInOrder(text: string)
    ensures InOrder(Headings(text), |text|)
  {
    hide HeadingOf, Shown, Lines;
    var lines := Lines(text);
    var hs := Headings(text);
    forall h | h in hs ensures h.offset < h.end <= |text| {
      var i :| 0 <= i < |hs| && hs[i] == h;
      var k := HeadingHasLine(lines, |lines|, i);
      LineAt(text, k);
    }
    forall i, j | 0 <= i < j < |hs| ensures hs[i].end <= hs[j].offset {
      HeadingsInOrder(lines, |lines|, i, j);
    }
  }

  lemma {:induction false} DividingInOrder(hs: seq<Heading>, level: nat, length: nat)
    requires InOrder(hs, length)
    ensures InOrder(Dividing(hs, level), length)
  {
    if hs != [] {
      var before := hs[..|hs| - 1];
      DividingInOrder(before, level, length);
      var last := hs[|hs| - 1];
      forall d | d in Dividing(before, level) ensures d.end <= last.offset {
        assert d in before;
      }
      assert last in hs;
    }
  }

  /** Each section starts after a heading of its level, which is the last one before it. */
  lemma {:induction false} SectionHasHeading(ds: seq<Heading>, level: nat, n: nat, length: nat, i: nat) returns (m: nat)
    requires n <= |ds| && i < |SectionsTo(ds, level, n, length)|
    ensures m < n && ds[m].level == level
    ensures SectionsTo(ds, level, n, length)[i] == Section(ds[m].title, ds[m].end, EndOf(ds, m, length))
    ensures i < |SectionsTo(ds, level, m + 1, length)| && |SectionsTo(ds, level, m, length)| == i
  {
    if i < |SectionsTo(ds, level, n - 1, length)| {
      m := SectionHasHeading(ds, level, n - 1, length, i);
    } else {
      m := n - 1;
    }
  }

  /** Every heading of the level has its section. */
  lemma {:induction false} HeadingHasSection(ds: seq<Heading>, level: nat, n: nat, length: nat, m: nat) returns (i: nat)
    requires m < n <= |ds| && ds[m].level == level
    ensures i < |SectionsTo(ds, level, n, length)|
    ensures SectionsTo(ds, level, n, length)[i] == Section(ds[m].title, ds[m].end, EndOf(ds, m, length))
  {
    if m < n - 1 {
      i := HeadingHasSection(ds, level, n - 1, length, m);
    } else {
      i := |SectionsTo(ds, level, n - 1, length)|;
    }
  }

  /** A range between neighbouring headings touches no other heading. */
  lemma RangeIsFree(ds: seq<Heading>, m: nat, length: nat, d: Heading)
    requires InOrder(ds, length) && m < |ds| && d in ds
    ensures ds[m].end <= EndOf(ds, m, length) <= length
    ensures d.end <= ds[m].end || EndOf(ds, m, length) <= d.offset
  {
    var j :| 0 <= j < |ds| && ds[j] == d;
    assert ds[m] in ds;
    if m + 1 < |ds| {
      assert ds[m + 1] in ds;
    }
  }

  /** A section runs from its heading's end to the next heading of at most its level, or to the
      end of the text. */
  lemma SectionsAreExact(text: string, level: nat, i: nat) returns (h: Heading)
    requires i < |Sections(text, level)|
    ensures h in Headings(text) && h.level == level
    ensures var s := Sections(text, level)[i];
      && s.title == h.title && s.start == h.end <= s.end <= |text|
      && (s.end == |text| || exists d :: d in Headings(text) && d.level <= level && d.offset == s.end)
      && forall d | d in Headings(text) && d.level <= level :: d.end <= s.start || s.end <= d.offset
  {
    hide Headings, Dividing, SectionsTo, InOrder;
    var hs := Headings(text);
    var ds := Dividing(hs, level);
    TextHeadingsInOrder(text);
    DividingInOrder(hs, level, |text|);
    var m := SectionHasHeading(ds, level, |ds|, |text|, i);
    h := ds[m];
    RangeIsFree(ds, m, |text|, h);
    forall d | d in hs && d.level <= level ensures d.end <= h.end || EndOf(ds, m, |text|) <= d.offset {
      RangeIsFree(ds, m, |text|, d);
    }
    if m + 1 < |ds| {
      assert ds[m + 1] in ds;
    }
  }

  /** Sections of one level come in order and do not overlap. */
  lemma SectionsAreDisjoint(text: string, level: nat, i: nat, j: nat)
    requires i < j < |Sections(text, level)|
    ensures Sections(text, level)[i].end < Sections(text, level)[j].start
  {
    hide Headings, Dividing, SectionsTo;
    var hs := Headings(text);
    var ds := Dividing(hs, level);
    TextHeadingsInOrder(text);
    DividingInOrder(hs, level, |text|);
    var m := SectionHasHeading(ds, level, |ds|, |text|, i);
    var n := SectionHasHeading(ds, level, |ds|, |text|, j);
    SectionsGrow(ds, level, n, m, |text|);
    LaterEnd(ds, m, n, |text|);
  }

  lemma LaterEnd(ds: seq<Heading>, m: nat, n: nat, length: nat)
    requires InOrder(ds, length) && m < n < |ds|
    ensures EndOf(ds, m, length) < ds[n].end
  {
    assert ds[m + 1] in ds && ds[n] in ds;
  }

  lemma {:induction false} SectionsGrow(ds: seq<Heading>, level: nat, n: nat, m: nat, length: nat)
    requires n <= |ds| && m <= |ds|
    ensures n <= m ==> |SectionsTo(ds, level, n, length)| <= |SectionsTo(ds, level, m, length)|
    decreases m
  {
    if n < m { SectionsGrow(ds, level, n, m - 1, length); }
  }
}
