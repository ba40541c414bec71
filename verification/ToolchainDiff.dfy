/** The structural comparison of two toolchain records (`scripts/release_versioned.py`): a
    stack of pending pairs that reports what the recursive comparison reports, in its order. */
module ToolchainDiff {
  import opened Text

  /** A double, as far as comparison sees it. */
  datatype Number = Finite(r: real) | Infinite(negative: bool) | NotANumber

  datatype Json =
    | Null | Bool(b: bool) | Int(n: int) | Float(x: Number) | Str(s: string)
    | List(items: seq<Json>) | Dict(members: map<string, Json>)

  /** Booleans are the integers 0 and 1 to Python's `==`. */
  function NumberOf(v: Json): (x: Option<Number>) {
    match v
    case Bool(b) => Some(Finite(if b then 1.0 else 0.0))
    case Int(n) => Some(Finite(n as real))
    case Float(x) => Some(x)
    case _ => None
  }

  /** Python's `==` of two values. A bare not-a-number differs from itself. */
  predicate Equal(a: Json, b: Json)
    decreases a, 0
  {
    if NumberOf(a).Some? then NumberOf(b).Some? && NumberOf(a) == NumberOf(b) && NumberOf(a).value != NotANumber
    else match a
    case List(items) => b.List? && |items| == |b.items| && forall i | 0 <= i < |items| :: SameElement(items[i], b.items[i])
    case Dict(members) =>
      b.Dict? && members.Keys == b.members.Keys && forall k | k in members && k in b.members :: SameElement(members[k], b.members[k])
    case _ => a == b
  }

  /** Inside containers identity comes before equality, and all parsed not-a-numbers are one object. */
  predicate SameElement(a: Json, b: Json)
    decreases a, 1
  {
    (a == b == Float(NotANumber)) || Equal(a, b)
  }

  function TypeName(v: Json): (name: string) {
    match v
    case Null => "NoneType"
    case Bool(_) => "bool"
    case Int(_) => "int"
    case Float(_) => "float"
    case Str(_) => "str"
    case List(_) => "list"
    case Dict(_) => "dict"
  }

  datatype Change = MissingBefore | MissingAfter | TypeChanged(from: string, to: string) | ValueChanged

  // ---------------------------------------------------------------- keys in order

  predicate Ascending(keys: seq<string>) {
    forall i, j | 0 <= i < j < |keys| :: Less(keys[i], keys[j])
  }

  lemma {:induction false} LeastExists(s: set<string>)
    requires s != {}
    ensures exists k :: IsLeast(s, k)
    decreases |s|
  {
    var x :| x in s;
    if s == {x} {
      assert IsLeast(s, x);
    } else {
      LeastExists(s - {x});
      var k :| IsLeast(s - {x}, k);
      LessTotal(x, k);
      if Less(k, x) {
        assert IsLeast(s, k);
      } else {
        forall j | j in s - {x, k} ensures Less(x, j) {
          if x != k { LessTransitive(x, k, j); }
        }
        assert IsLeast(s, x);
      }
    }
  }

  predicate IsLeast(s: set<string>, k: string) {
    k in s && forall j | j in s - {k} :: Less(k, j)
  }

  lemma LeastUnique(s: set<string>)
    ensures forall k, l | IsLeast(s, k) && IsLeast(s, l) :: k == l
  {
    forall k, l | IsLeast(s, k) && IsLeast(s, l) ensures k == l {
      if k != l {
        LessTransitive(k, l, k);
        LessIrreflexive(k);
      }
    }
  }

  function Least(s: set<string>): (k: string)
    requires s != {}
    ensures IsLeast(s, k)
  {
    LeastExists(s);
    LeastUnique(s);
    var k :| k in s && IsLeast(s, k);
    k
  }

  /** `sorted` of a set of keys. */
  function Sorted(s: set<string>): (keys: seq<string>)
    ensures Ascending(keys)
    ensures forall k :: k in keys <==> k in s
    decreases |s|
  {
    if s == {} then [] else
      var k := Least(s);
      [k] + Sorted(s - {k})
  }

  // ---------------------------------------------------------------- paths

  /** RFC 6901, section 3: `~` and `/` inside a reference token. */
  function Escape(token: string): (s: string)
    ensures '/' !in s
  {
    if token == "" then ""
    else (if token[0] == '~' then "~0" else if token[0] == '/' then "~1" else [token[0]]) + Escape(token[1..])
  }

  function Unescape(s: string): (token: string) {
    if s == "" then ""
    else if s[0] == '~' && |s| > 1 then (if s[1] == '1' then "/" else "~") + Unescape(s[2..])
    else [s[0]] + Unescape(s[1..])
  }

  lemma {:induction false} EscapeReads(token: string)
    ensures Unescape(Escape(token)) == token
  {
    if token != "" {
      EscapeReads(token[1..]);
      var (s, rest) := (Escape(token), Escape(token[1..]));
      if token[0] == '~' || token[0] == '/' {
        assert s[2..] == rest;
      } else {
        assert s[1..] == rest;
      }
    }
  }

  lemma {:induction false} EscapePlain(token: string)
    requires AllDigits(token)
    ensures Escape(token) == token
  {
    if token != "" {
      EscapePlain(token[1..]);
    }
  }

  predicate Plain(c: char) {
    IsDigit(c) || 'a' <= c <= 'z' || 'A' <= c <= 'Z' || c in "_./~-"
  }

  type Digest = string -> string

  /** `diagnostic_label`: short plain text as it is, anything else by its digest. */
  function Label(digest: Digest, raw: string): (s: string) {
    if 1 <= |raw| <= 200 && forall c | c in raw :: Plain(c) then raw else "redacted-sha256-" + digest(raw)
  }

  /** The tokens from the record's root to a field. */
  type Place = seq<string>

  /** The path of a place before any redaction. */
  function RawPath(place: Place): (s: string) {
    if place == [] then "toolchain"
    else RawPath(place[..|place| - 1]) + "/" + Escape(place[|place| - 1])
  }

  lemma {:induction false} RawPathHasSlash(place: Place)
    ensures '/' in RawPath(place) <==> place != []
  {
    if place != [] {
      assert RawPath(place)[|RawPath(place[..|place| - 1])|] == '/';
    }
  }

  /** Different places have different paths, because the escaping is injective. */
  lemma {:induction false} RawPathsDiffer(p: Place, q: Place)
    requires RawPath(p) == RawPath(q)
    ensures p == q
    decreases |p|
  {
    hide Escape, Unescape;
    RawPathHasSlash(p);
    RawPathHasSlash(q);
    if p != [] {
      var (pi, pt) := (p[..|p| - 1], p[|p| - 1]);
      var (qi, qt) := (q[..|q| - 1], q[|q| - 1]);
      SplitAtLast(RawPath(pi), RawPath(qi), Escape(pt), Escape(qt), '/');
      EscapeReads(pt);
      EscapeReads(qt);
      RawPathsDiffer(pi, qi);
      assert p == pi + [pt] && q == qi + [qt];
    }
  }

  /** A place whose path is short and plain. */
  predicate Unredacted(place: Place) {
    |RawPath(place)| <= 200 && forall c | c in RawPath(place) :: Plain(c)
  }

  /** There the diagnostic path is that path, so it names the place. */
  lemma {:induction false} UnredactedPath(digest: Digest, place: Place)
    requires Unredacted(place)
    ensures PathText(digest, place) == RawPath(place)
    decreases |place|
  {
    hide Escape, Plain;
    if place != [] {
      var (inner, token) := (place[..|place| - 1], place[|place| - 1]);
      assert RawPath(place) == RawPath(inner) + "/" + Escape(token);
      UnredactedPath(digest, inner);
    }
  }

  function PathText(digest: Digest, place: Place): (s: string) {
    if place == [] then "toolchain"
    else Label(digest, PathText(digest, place[..|place| - 1]) + "/" + Escape(place[|place| - 1]))
  }

  function Raw(digest: Digest, place: Place, token: string): (s: string) {
    PathText(digest, place) + "/" + Escape(token)
  }

  lemma PathGrows(digest: Digest, place: Place, token: string)
    ensures PathText(digest, place + [token]) == Label(digest, Raw(digest, place, token))
    ensures '/' in Raw(digest, place, token)
  {
    hide Label, Escape;
    assert (place + [token])[..|place|] == place;
    assert Raw(digest, place, token)[|PathText(digest, place)|] == '/';
  }

  /** Two places share a diagnostic path only where the digest collides. */
  lemma {:induction false} PathsDiffer(digest: Digest, p: Place, q: Place) returns (x: string, y: string)
    requires forall s :: '/' !in digest(s)
    requires PathText(digest, p) == PathText(digest, q) && p != q
    ensures x != y && digest(x) == digest(y)
    decreases |p| + |q|
  {
    hide PathText, Label, Escape, Unescape;
    if p == [] || q == [] {
      RootLabel(digest, if p == [] then q else p);
      assert false;
    }
    var (pi, pt) := (p[..|p| - 1], p[|p| - 1]);
    var (qi, qt) := (q[..|q| - 1], q[|q| - 1]);
    assert p == pi + [pt] && q == qi + [qt];
    PathGrows(digest, pi, pt);
    PathGrows(digest, qi, qt);
    x, y := Raw(digest, pi, pt), Raw(digest, qi, qt);
    if x == y {
      SplitAtLast(PathText(digest, pi), PathText(digest, qi), Escape(pt), Escape(qt), '/');
      EscapeReads(pt);
      EscapeReads(qt);
      x, y := PathsDiffer(digest, pi, qi);
    } else {
      LabelShows(digest, x);
      LabelShows(digest, y);
    }
  }

  /** A label with a slash is the text itself, one without is a redaction. */
  lemma LabelShows(digest: Digest, raw: string)
    requires '/' in raw && '/' !in digest(raw)
    ensures if '/' in Label(digest, raw) then Label(digest, raw) == raw
      else Label(digest, raw) == "redacted-sha256-" + digest(raw) && digest(raw) == Label(digest, raw)[16..]
  {
  }

  lemma RootLabel(digest: Digest, place: Place)
    requires place != [] && forall s :: '/' !in digest(s)
    ensures PathText(digest, place) != PathText(digest, [])
  {
    hide Label, Escape;
    var (inner, token) := (place[..|place| - 1], place[|place| - 1]);
    assert place == inner + [token];
    PathGrows(digest, inner, token);
    LabelShows(digest, Raw(digest, inner, token));
    assert "toolchain"[0] == 't' && "redacted-sha256-"[0] == 'r';
  }

  // ---------------------------------------------------------------- the recursive comparison

  datatype Child = Child(token: string, before: Option<Json>, after: Option<Json>)

  function Member(v: Json, key: string): (m: Option<Json>)
    requires v.Dict?
    ensures m.Some? ==> m.value < v
  {
    if key in v.members then Some(v.members[key]) else None
  }

  function Item(v: Json, i: nat): (m: Option<Json>)
    requires v.List?
    ensures m.Some? ==> m.value < v
  {
    if i < |v.items| then Some(v.items[i]) else None
  }

  function Keys(before: Json, after: Json): (keys: seq<string>)
    requires before.Dict? && after.Dict?
    ensures forall i | 0 <= i < |keys| :: keys[i] in before.members || keys[i] in after.members
  {
    var keys := Sorted(before.members.Keys + after.members.Keys);
    assert forall i | 0 <= i < |keys| :: keys[i] in before.members.Keys + after.members.Keys;
    keys
  }

  function Length(before: Json, after: Json): (n: nat)
    requires before.List? && after.List?
  {
    if |before.items| < |after.items| then |after.items| else |before.items|
  }

  /** Something of `before`, or of the other value alone. */
  ghost predicate PartOf(c: Child, before: Json) {
    (c.before.Some? ==> c.before.value < before) && (c.before.Some? || c.after.Some?)
  }

  function FieldOf(before: Json, after: Json, key: string): (c: Child)
    requires before.Dict? && after.Dict? && (key in before.members || key in after.members)
    ensures PartOf(c, before)
  {
    Child(key, Member(before, key), Member(after, key))
  }

  function ItemOf(before: Json, after: Json, i: nat): (c: Child)
    requires before.List? && after.List? && i < Length(before, after)
    ensures PartOf(c, before)
  {
    Child(Decimal(i), Item(before, i), Item(after, i))
  }

  /** The fields of two mappings, or the positions of two lists, in order. */
  function Children(before: Json, after: Json): (cs: seq<Child>)
    ensures forall i | 0 <= i < |cs| :: PartOf(cs[i], before)
  {
    if before.Dict? && after.Dict? then
      var keys := Keys(before, after);
      seq(|keys|, i requires 0 <= i < |keys| => FieldOf(before, after, keys[i]))
    else if before.List? && after.List? then
      seq(Length(before, after), i requires 0 <= i < Length(before, after) => ItemOf(before, after, i))
    else []
  }

  datatype Finding<+P> = Finding(place: P, change: Change)

  /** The depth-first comparison of two present values. */
  function Diff(place: Place, before: Json, after: Json): (r: seq<Finding<Place>>)
    decreases before, 1, 0
  {
    if Equal(before, after) then []
    else if TypeName(before) != TypeName(after) then [Finding(place, TypeChanged(TypeName(before), TypeName(after)))]
    else if before.Dict? || before.List? then DiffFrom(place, before, after, 0)
    else [Finding(place, ValueChanged)]
  }

  function DiffFrom(place: Place, before: Json, after: Json, i: nat): (r: seq<Finding<Place>>)
    decreases before, 0, |Children(before, after)| - i
  {
    var cs := Children(before, after);
    if i >= |cs| then []
    else
      var inner := place + [cs[i].token];
      (if cs[i].before.None? then [Finding(inner, MissingBefore)]
       else if cs[i].after.None? then [Finding(inner, MissingAfter)]
       else Diff(inner, cs[i].before.value, cs[i].after.value)) + DiffFrom(place, before, after, i + 1)
  }

  /** Nothing is reported exactly when the two values are equal. */
  lemma {:induction false} SilentWhenEqual(place: Place, before: Json, after: Json)
    ensures Diff(place, before, after) == [] <==> Equal(before, after)
    decreases before, 1, 0
  {
    hide Children;
    if !Equal(before, after) && TypeName(before) == TypeName(after) && (before.Dict? || before.List?) {
      var i := UnequalChild(before, after);
      var c := Children(before, after)[i];
      if c.before.Some? && c.after.Some? {
        SilentWhenEqual(place + [c.token], c.before.value, c.after.value);
      }
      FoundLater(place, before, after, 0, i);
    }
  }

  /** A value is reported against itself only if it is a bare not-a-number. */
  lemma {:induction false} SelfEqual(v: Json)
    ensures Equal(v, v) <==> v != Float(NotANumber)
    decreases v
  {
    if v.List? {
      forall i | 0 <= i < |v.items| ensures SameElement(v.items[i], v.items[i]) {
        SelfEqual(v.items[i]);
      }
    } else if v.Dict? {
      forall k | k in v.members ensures SameElement(v.members[k], v.members[k]) {
        SelfEqual(v.members[k]);
      }
    }
  }

  /** A not-a-number at one place of two containers of one type is reported exactly if the
      containers are not equal. */
  lemma NanIsReportedExactly(place: Place, a: Json, b: Json, j: nat)
    requires j < |Children(a, b)|
    requires Children(a, b)[j].before == Children(a, b)[j].after == Some(Float(NotANumber))
    ensures Finding(place + [Children(a, b)[j].token], ValueChanged) in Diff(place, a, b) <==> !Equal(a, b)
  {
    hide DiffFrom, Equal;
    ChildrenOfContainers(a, b);
    hide Children;
    if !Equal(a, b) {
      var f := Finding(place + [Children(a, b)[j].token], ValueChanged);
      NanAlone(place + [Children(a, b)[j].token]);
      FoundIn(place, a, b, 0, j, f);
    }
  }

  lemma ChildrenOfContainers(a: Json, b: Json)
    requires Children(a, b) != []
    ensures (a.Dict? && b.Dict?) || (a.List? && b.List?)
  {
  }

  lemma NanAlone(place: Place)
    ensures Diff(place, Float(NotANumber), Float(NotANumber)) == [Finding(place, ValueChanged)]
  {
  }

  /** What Python's equality makes of numbers: no report for `true` against `1` or `1.0`, and a
      not-a-number that is silent in equal containers and reported once their comparison fails. */
  lemma NumbersAsPythonComparesThem(place: Place, key: string, other: string, v: Json)
    requires key != other
    ensures var nan := Float(NotANumber);
      && Diff(place, Bool(true), Int(1)) == [] && Diff(place, Bool(true), Float(Finite(1.0))) == []
      && Diff(place, Dict(map[key := nan]), Dict(map[key := nan])) == []
      && Diff(place, nan, nan) == [Finding(place, ValueChanged)]
      && Finding(place + [key], ValueChanged) in Diff(place, Dict(map[key := nan]), Dict(map[key := nan, other := v]))
  {
    hide Children, DiffFrom;
    var nan := Float(NotANumber);
    var (a, b) := (Dict(map[key := nan]), Dict(map[key := nan, other := v]));
    SelfEqual(a);
    assert other in b.members && other !in a.members;
    assert !Equal(a, b);
    var i := NanChild(key, other, v);
    NanIsReportedExactly(place, a, b, i);
    NanAlone(place);
  }

  lemma NanChild(key: string, other: string, v: Json) returns (i: nat)
    requires key != other
    ensures var nan := Float(NotANumber);
      var cs := Children(Dict(map[key := nan]), Dict(map[key := nan, other := v]));
      i < |cs| && cs[i] == Child(key, Some(nan), Some(nan))
  {
    var nan := Float(NotANumber);
    i := KeyAt(Dict(map[key := nan]), Dict(map[key := nan, other := v]), key);
  }

  /** A finding of one child is a finding of the container. */
  lemma {:induction false} FoundIn(place: Place, before: Json, after: Json, i: nat, j: nat, f: Finding<Place>)
    requires i <= j < |Children(before, after)|
    requires var c := Children(before, after)[j];
      c.before.Some? && c.after.Some? && f in Diff(place + [c.token], c.before.value, c.after.value)
    ensures f in DiffFrom(place, before, after, i)
    decreases j - i
  {
    hide Children, Diff;
    if i < j {
      FoundIn(place, before, after, i + 1, j, f);
    }
  }

  predicate Differs(c: Child) {
    c.before.None? || c.after.None? || !Equal(c.before.value, c.after.value)
  }

  lemma UnequalChild(before: Json, after: Json) returns (i: nat)
    requires !Equal(before, after) && ((before.Dict? && after.Dict?) || (before.List? && after.List?))
    ensures i < |Children(before, after)| && Differs(Children(before, after)[i])
  {
    if before.Dict? {
      i := UnequalField(before, after);
    } else {
      i := UnequalItem(before, after);
    }
  }

  lemma UnequalField(before: Json, after: Json) returns (i: nat)
    requires before.Dict? && after.Dict? && !Equal(before, after)
    ensures i < |Children(before, after)| && Differs(Children(before, after)[i])
  {
    var (a, b) := (before.members, after.members);
    var k: string;
    if a.Keys != b.Keys {
      if x :| x in a.Keys && x !in b.Keys { k := x; } else { k :| k in b.Keys && k !in a.Keys; }
    } else {
      k :| k in a && k in b && !SameElement(a[k], b[k]);
    }
    hide Equal;
    i := KeyAt(before, after, k);
  }

  lemma KeyAt(before: Json, after: Json, k: string) returns (i: nat)
    requires before.Dict? && after.Dict? && (k in before.members || k in after.members)
    ensures i < |Children(before, after)| && Children(before, after)[i] == FieldOf(before, after, k)
  {
    assert k in before.members.Keys + after.members.Keys;
    var keys := Keys(before, after);
    assert k in keys;
    i :| 0 <= i < |keys| && keys[i] == k;
  }

  lemma UnequalItem(before: Json, after: Json) returns (i: nat)
    requires before.List? && after.List? && !Equal(before, after)
    ensures i < |Children(before, after)| && Differs(Children(before, after)[i])
  {
    if |before.items| != |after.items| {
      i := if |before.items| < |after.items| then |before.items| else |after.items|;
    } else {
      i :| 0 <= i < |before.items| && !SameElement(before.items[i], after.items[i]);
    }
    hide Equal;
  }

  lemma {:induction false} FoundLater(place: Place, before: Json, after: Json, i: nat, j: nat)
    requires i <= j < |Children(before, after)|
    requires var c := Children(before, after)[j];
      c.before.Some? && c.after.Some? ==> Diff(place + [c.token], c.before.value, c.after.value) != []
    ensures DiffFrom(place, before, after, i) != []
    decreases j - i
  {
    hide Children, Diff;
    if i < j {
      FoundLater(place, before, after, i + 1, j);
    }
  }

  // ---------------------------------------------------------------- no field twice

  lemma {:induction false} InsideDiff(place: Place, before: Json, after: Json, f: Finding<Place>)
    requires f in Diff(place, before, after)
    ensures place <= f.place
    decreases before, 1, 0
  {
    hide Children, Equal;
    if f in DiffFrom(place, before, after, 0) {
      var _ := ChildOf(place, before, after, 0, f);
    }
  }

  /** Every finding of a container lies inside one of its children. */
  lemma {:induction false} ChildOf(place: Place, before: Json, after: Json, i: nat, f: Finding<Place>) returns (j: nat)
    requires f in DiffFrom(place, before, after, i)
    ensures i <= j < |Children(before, after)| && place + [Children(before, after)[j].token] <= f.place
    ensures place <= f.place
    decreases before, 0, |Children(before, after)| - i
  {
    hide Children, Diff;
    var cs := Children(before, after);
    if f in DiffFrom(place, before, after, i + 1) {
      j := ChildOf(place, before, after, i + 1, f);
    } else {
      j := i;
      if cs[i].before.Some? && cs[i].after.Some? {
        InsideDiff(place + [cs[i].token], cs[i].before.value, cs[i].after.value, f);
      }
    }
    assert place <= place + [cs[j].token];
  }

  lemma TokensDiffer(before: Json, after: Json, i: nat, j: nat)
    requires i < j < |Children(before, after)|
    ensures Children(before, after)[i].token != Children(before, after)[j].token
  {
    if before.Dict? {
      LessIrreflexive(Keys(before, after)[i]);
    } else if Decimal(i) == Decimal(j) {
      DecimalInjective(i, j);
    }
  }

  ghost predicate Once<P(!new)>(fs: seq<Finding<P>>) {
    forall i, j | 0 <= i < j < |fs| :: fs[i].place != fs[j].place
  }

  lemma OnceJoin(fs: seq<Finding<Place>>, gs: seq<Finding<Place>>)
    requires Once(fs) && Once(gs) && forall f, g | f in fs && g in gs :: f.place != g.place
    ensures Once(fs + gs)
  {
    forall i, j | 0 <= i < j < |fs + gs| ensures (fs + gs)[i].place != (fs + gs)[j].place {
      if i < |fs| && j >= |fs| {
        assert fs[i] in fs && gs[j - |fs|] in gs;
      }
    }
  }

  /** No field is reported twice. */
  lemma {:induction false} PlacesAreDistinct(place: Place, before: Json, after: Json)
    ensures Once(Diff(place, before, after))
    decreases before, 1, 0
  {
    hide Children, Equal, DiffFrom, Once;
    NoneTwice();
    ChildPlacesAreDistinct(place, before, after, 0);
    Single(place, before, after);
  }

  lemma NoneTwice()
    ensures Once<Place>([])
  {
  }

  lemma Single(place: Place, before: Json, after: Json)
    ensures forall f: Finding<Place> :: Once([f])
  {
  }

  lemma {:induction false} ChildPlacesAreDistinct(place: Place, before: Json, after: Json, i: nat)
    ensures Once(DiffFrom(place, before, after, i))
    decreases before, 0, |Children(before, after)| - i
  {
    hide Children, Diff, Once;
    var cs := Children(before, after);
    NoneTwice();
    if i < |cs| {
      var inner := place + [cs[i].token];
      ChildPlacesAreDistinct(place, before, after, i + 1);
      if cs[i].before.Some? && cs[i].after.Some? {
        PlacesAreDistinct(inner, cs[i].before.value, cs[i].after.value);
      }
      Single(place, before, after);
      var here := if cs[i].before.None? then [Finding(inner, MissingBefore)]
        else if cs[i].after.None? then [Finding(inner, MissingAfter)]
        else Diff(inner, cs[i].before.value, cs[i].after.value);
      var later := DiffFrom(place, before, after, i + 1);
      forall f, g | f in here && g in later ensures f.place != g.place {
        if cs[i].before.Some? && cs[i].after.Some? { InsideDiff(inner, cs[i].before.value, cs[i].after.value, f); }
        assert inner <= f.place;
        var j := ChildOf(place, before, after, i + 1, g);
        TokensDiffer(before, after, i, j);
        assert inner[|place|] == cs[i].token && (place + [cs[j].token])[|place|] == cs[j].token;
      }
      OnceJoin(here, later);
    }
  }

  /** Two reports of one comparison share a path only where the digest collides. */
  lemma ReportsShareNoPath(digest: Digest, before: Json, after: Json, i: nat, j: nat) returns (x: string, y: string)
    requires forall s :: '/' !in digest(s)
    requires var r := Labelled(digest, Diff([], before, after)); i < j < |r| && r[i].place == r[j].place
    ensures x != y && digest(x) == digest(y)
  {
    hide Diff, PathText;
    PlacesAreDistinct([], before, after);
    var fs := Diff([], before, after);
    x, y := PathsDiffer(digest, fs[i].place, fs[j].place);
  }

  // ---------------------------------------------------------------- the stack

  datatype Pending = Pending(path: string, before: Option<Json>, after: Option<Json>)

  function Labelled(digest: Digest, fs: seq<Finding<Place>>): (r: seq<Finding<string>>) {
    seq(|fs|, i requires 0 <= i < |fs| => Finding(PathText(digest, fs[i].place), fs[i].change))
  }

  /** What comparing one pending pair reports. */
  function DiffPending(place: Place, before: Option<Json>, after: Option<Json>): (r: seq<Finding<Place>>) {
    if before.None? then [Finding(place, MissingBefore)]
    else if after.None? then [Finding(place, MissingAfter)]
    else Diff(place, before.value, after.value)
  }

  /** What the pending pairs still report, the last one first. */
  function Remaining(pending: seq<Pending>, places: seq<Place>): (r: seq<Finding<Place>>)
    requires |places| == |pending|
  {
    if pending == [] then []
    else
      var k := |pending| - 1;
      DiffPending(places[k], pending[k].before, pending[k].after) + Remaining(pending[..k], places[..k])
  }

  /** How many pairs a comparison takes off the stack. */
  function Work(before: Json, after: Json): (n: nat)
    ensures n > 0
    decreases before, 1, 0
  {
    1 + WorkFrom(before, after, 0)
  }

  function WorkFrom(before: Json, after: Json, i: nat): (n: nat)
    decreases before, 0, |Children(before, after)| - i
  {
    var cs := Children(before, after);
    if i >= |cs| then 0
    else
      (if cs[i].before.Some? && cs[i].after.Some? then Work(cs[i].before.value, cs[i].after.value) else 1)
        + WorkFrom(before, after, i + 1)
  }

  function PendingWork(before: Option<Json>, after: Option<Json>): (n: nat)
    ensures n > 0
  {
    if before.Some? && after.Some? then Work(before.value, after.value) else 1
  }

  function WorkLeft(pending: seq<Pending>): (n: nat) {
    if pending == [] then 0
    else
      var k := |pending| - 1;
      PendingWork(pending[k].before, pending[k].after) + WorkLeft(pending[..k])
  }

  ghost predicate AtPlaces(digest: Digest, pending: seq<Pending>, places: seq<Place>) {
    |places| == |pending| && forall i | 0 <= i < |pending| :: pending[i].path == PathText(digest, places[i])
  }

  /** Push the children of a pair from the `i`-th on, so that the `i`-th comes off first. */
  function Queued(digest: Digest, path: string, before: Json, after: Json, i: nat): (r: seq<Pending>)
    decreases |Children(before, after)| - i
  {
    var cs := Children(before, after);
    if i >= |cs| then []
    else
      Queued(digest, path, before, after, i + 1)
        + [Pending(Label(digest, path + "/" + Escape(cs[i].token)), cs[i].before, cs[i].after)]
  }

  function QueuedPlaces(place: Place, before: Json, after: Json, i: nat): (r: seq<Place>)
    decreases |Children(before, after)| - i
  {
    var cs := Children(before, after);
    if i >= |cs| then [] else QueuedPlaces(place, before, after, i + 1) + [place + [cs[i].token]]
  }

  lemma NothingQueued(digest: Digest, path: string, before: Json, after: Json)
    ensures Queued(digest, path, before, after, |Children(before, after)|) == []
  {
  }

  lemma QueuedStep(digest: Digest, path: string, before: Json, after: Json, i: nat, c: Child, rest: seq<Pending>)
    requires i < |Children(before, after)| && Children(before, after)[i] == c
    requires rest == Queued(digest, path, before, after, i + 1)
    ensures Queued(digest, path, before, after, i)
      == rest + [Pending(Label(digest, path + "/" + Escape(c.token)), c.before, c.after)]
  {
    hide Children, Label, Escape;
  }

  method QueueMapping(digest: Digest, pending: seq<Pending>, path: string, before: Json, after: Json) returns (more: seq<Pending>)
    requires before.Dict? && after.Dict?
    ensures more == pending + Queued(digest, path, before, after, 0)
  {
    hide Label, Escape, Queued, Sorted, Less;
    more := pending;
    var keys := Keys(before, after);
    var i := |keys|;
    NothingQueued(digest, path, before, after);
    while i > 0
      invariant 0 <= i <= |keys|
      invariant more == pending + Queued(digest, path, before, after, i)
    {
      i := i - 1;
      QueuedStep(digest, path, before, after, i, Child(keys[i], Member(before, keys[i]), Member(after, keys[i])),
        Queued(digest, path, before, after, i + 1));
      more := more + [Pending(Label(digest, path + "/" + Escape(keys[i])), Member(before, keys[i]), Member(after, keys[i]))];
    }
  }

  method QueueList(digest: Digest, pending: seq<Pending>, path: string, before: Json, after: Json) returns (more: seq<Pending>)
    requires before.List? && after.List?
    ensures more == pending + Queued(digest, path, before, after, 0)
  {
    hide Label, Escape, Queued, Decimal;
    more := pending;
    var i := Length(before, after);
    NothingQueued(digest, path, before, after);
    while i > 0
      invariant 0 <= i <= Length(before, after)
      invariant more == pending + Queued(digest, path, before, after, i)
    {
      i := i - 1;
      EscapePlain(Decimal(i));
      QueuedStep(digest, path, before, after, i, Child(Decimal(i), Item(before, i), Item(after, i)),
        Queued(digest, path, before, after, i + 1));
      more := more + [Pending(Label(digest, path + "/" + Decimal(i)), Item(before, i), Item(after, i))];
    }
  }

  lemma TakeOff(pending: seq<Pending>, places: seq<Place>, p: Pending, place: Place)
    requires |places| == |pending|
    ensures Remaining(pending + [p], places + [place]) == DiffPending(place, p.before, p.after) + Remaining(pending, places)
    ensures WorkLeft(pending + [p]) == PendingWork(p.before, p.after) + WorkLeft(pending)
  {
    hide DiffPending, PendingWork;
    assert (pending + [p])[..|pending|] == pending && (places + [place])[..|pending|] == places;
  }

  lemma PlacesStep(place: Place, before: Json, after: Json, i: nat)
    requires i < |Children(before, after)|
    ensures QueuedPlaces(place, before, after, i)
      == QueuedPlaces(place, before, after, i + 1) + [place + [Children(before, after)[i].token]]
  {
    hide Children;
  }

  lemma FromStep(place: Place, before: Json, after: Json, i: nat)
    requires i < |Children(before, after)|
    ensures var c := Children(before, after)[i];
      && DiffFrom(place, before, after, i)
        == DiffPending(place + [c.token], c.before, c.after) + DiffFrom(place, before, after, i + 1)
      && WorkFrom(before, after, i) == PendingWork(c.before, c.after) + WorkFrom(before, after, i + 1)
  {
    hide Children, Diff, Work;
  }

  /** Pushing the children leaves to report exactly what the container had to. */
  lemma {:induction false} QueuedRemains(
      digest: Digest, pending: seq<Pending>, places: seq<Place>, place: Place, before: Json, after: Json, i: nat)
    requires AtPlaces(digest, pending, places)
    ensures var (more, at) := (pending + Queued(digest, PathText(digest, place), before, after, i), places + QueuedPlaces(place, before, after, i));
      && |more| == |at| && AtPlaces(digest, more, at)
      && Remaining(more, at) == DiffFrom(place, before, after, i) + Remaining(pending, places)
      && WorkLeft(more) == WorkFrom(before, after, i) + WorkLeft(pending)
    decreases |Children(before, after)| - i
  {
    hide Children, Diff, Work, Label, Escape, Remaining, WorkLeft, PathText;
    var cs := Children(before, after);
    if i >= |cs| {
      assert pending + [] == pending && places + [] == places;
    } else {
      QueuedRemains(digest, pending, places, place, before, after, i + 1);
      var (c, inner) := (cs[i], place + [cs[i].token]);
      var queued := Queued(digest, PathText(digest, place), before, after, i + 1);
      var below := QueuedPlaces(place, before, after, i + 1);
      var p := Pending(Label(digest, PathText(digest, place) + "/" + Escape(c.token)), c.before, c.after);
      QueuedStep(digest, PathText(digest, place), before, after, i, c, queued);
      PlacesStep(place, before, after, i);
      FromStep(place, before, after, i);
      hide Queued, QueuedPlaces, DiffFrom, WorkFrom, DiffPending, AtPlaces, PendingWork;
      PathGrows(digest, place, c.token);
      TakeOff(pending + queued, places + below, p, inner);
      Regroup(pending, queued, [p]);
      Regroup(places, below, [inner]);
      Regroup(DiffPending(inner, c.before, c.after), DiffFrom(place, before, after, i + 1), Remaining(pending, places));
    }
  }

  lemma Regroup<T>(a: seq<T>, b: seq<T>, c: seq<T>)
    ensures a + (b + c) == a + b + c
  {
  }

  lemma PopLast(digest: Digest, pending: seq<Pending>, places: seq<Place>)
    requires AtPlaces(digest, pending, places) && pending != []
    ensures var k := |pending| - 1;
      && AtPlaces(digest, pending[..k], places[..k]) && pending[k].path == PathText(digest, places[k])
      && Remaining(pending, places)
        == DiffPending(places[k], pending[k].before, pending[k].after) + Remaining(pending[..k], places[..k])
      && WorkLeft(pending) == PendingWork(pending[k].before, pending[k].after) + WorkLeft(pending[..k])
  {
    hide DiffPending, PendingWork, PathText;
  }

  lemma WholeContainer(place: Place, before: Json, after: Json)
    requires !Equal(before, after) && TypeName(before) == TypeName(after) && (before.Dict? || before.List?)
    ensures DiffPending(place, Some(before), Some(after)) == DiffFrom(place, before, after, 0)
    ensures WorkFrom(before, after, 0) < PendingWork(Some(before), Some(after))
    ensures before.Dict? ==> after.Dict?
    ensures before.List? ==> after.List?
  {
    hide DiffFrom, WorkFrom;
  }

  lemma OneFinding(place: Place, before: Json, after: Json)
    requires Equal(before, after) || TypeName(before) != TypeName(after) || !(before.Dict? || before.List?)
    ensures DiffPending(place, Some(before), Some(after)) ==
      if Equal(before, after) then []
      else if TypeName(before) != TypeName(after) then [Finding(place, TypeChanged(TypeName(before), TypeName(after)))]
      else [Finding(place, ValueChanged)]
  {
    hide Equal;
  }

  /** The stack yields the recursive comparison's findings in its order, under their labels. */
  method ToolchainChanges(digest: Digest, original: Json, current: Json) returns (reports: seq<Finding<string>>)
    ensures reports == Labelled(digest, Diff([], original, current))
  {
    hide Diff, PendingWork, WorkFrom, Queued, QueuedPlaces, Children, Equal, PathText, DiffPending, DiffFrom, AtPlaces, Remaining, WorkLeft, Labelled;
    var pending := [Pending("toolchain", Some(original), Some(current))];
    ghost var places: seq<Place> := [[]];
    ghost var all := Diff([], original, current);
    ghost var done: seq<Finding<Place>> := [];
    reports := [];
    StartsWhole(digest, original, current);
    NothingRemains(digest);
    assert [] + all == all;
    while pending != []
      invariant |places| == |pending| && AtPlaces(digest, pending, places)
      invariant done + Remaining(pending, places) == all
      invariant reports == Labelled(digest, done)
      decreases WorkLeft(pending)
    {
      var k := |pending| - 1;
      var Pending(path, before, after) := pending[k];
      ghost var place := places[k];
      PopLast(digest, pending, places);
      pending, places := pending[..k], places[..k];
      ghost var later := Remaining(pending, places);
      if before.None? || after.None? {
        var change := if before.None? then MissingBefore else MissingAfter;
        MissingFinding(place, before, after);
        reports := reports + [Finding(path, change)];
        OneMore(digest, done, place, change, later);
        done := done + [Finding(place, change)];
      } else if Equal(before.value, after.value) {
        OneFinding(place, before.value, after.value);
        assert [] + later == later;
      } else if TypeName(before.value) != TypeName(after.value) {
        OneFinding(place, before.value, after.value);
        var change := TypeChanged(TypeName(before.value), TypeName(after.value));
        reports := reports + [Finding(path, change)];
        OneMore(digest, done, place, change, later);
        done := done + [Finding(place, change)];
      } else if before.value.Dict? {
        WholeContainer(place, before.value, after.value);
        QueuedRemains(digest, pending, places, place, before.value, after.value, 0);
        pending := QueueMapping(digest, pending, path, before.value, after.value);
        places := places + QueuedPlaces(place, before.value, after.value, 0);
      } else if before.value.List? {
        WholeContainer(place, before.value, after.value);
        QueuedRemains(digest, pending, places, place, before.value, after.value, 0);
        pending := QueueList(digest, pending, path, before.value, after.value);
        places := places + QueuedPlaces(place, before.value, after.value, 0);
      } else {
        OneFinding(place, before.value, after.value);
        reports := reports + [Finding(path, ValueChanged)];
        OneMore(digest, done, place, ValueChanged, later);
        done := done + [Finding(place, ValueChanged)];
      }
    }
    assert done + [] == done;
  }

  lemma OneMore(digest: Digest, done: seq<Finding<Place>>, place: Place, change: Change, later: seq<Finding<Place>>)
    ensures done + ([Finding(place, change)] + later) == done + [Finding(place, change)] + later
    ensures Labelled(digest, done + [Finding(place, change)]) == Labelled(digest, done) + [Finding(PathText(digest, place), change)]
  {
    hide PathText;
    OneLabelled(digest, done, Finding(place, change));
    hide Labelled;
  }

  lemma OneLabelled(digest: Digest, done: seq<Finding<Place>>, f: Finding<Place>)
    ensures Labelled(digest, done + [f]) == Labelled(digest, done) + [Finding(PathText(digest, f.place), f.change)]
  {
    hide PathText;
    var (x, y) := (Labelled(digest, done + [f]), Labelled(digest, done) + [Finding(PathText(digest, f.place), f.change)]);
    assert |x| == |y|;
    forall i | 0 <= i < |x| ensures x[i] == y[i] {
      assert (done + [f])[i] == if i < |done| then done[i] else f;
    }
  }

  lemma MissingFinding(place: Place, before: Option<Json>, after: Option<Json>)
    requires before.None? || after.None?
    ensures DiffPending(place, before, after) == [Finding(place, if before.None? then MissingBefore else MissingAfter)]
  {
  }

  lemma NothingRemains(digest: Digest)
    ensures Remaining([], []) == [] && Labelled(digest, []) == []
  {
  }

  lemma StartsWhole(digest: Digest, original: Json, current: Json)
    ensures Remaining([Pending("toolchain", Some(original), Some(current))], [[]]) == Diff([], original, current)
    ensures AtPlaces(digest, [Pending("toolchain", Some(original), Some(current))], [[]])
  {
    hide Diff;
  }
}
