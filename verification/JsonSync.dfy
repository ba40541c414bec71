/** The JSON editor under the laws that `sync_versions` relies on. */
module JsonSync {
  import opened Text
  import opened JsonLexer
  import opened JsonDocument
  import opened JsonTree
  import opened JsonEdit
  import opened VersionPlan
  import opened VersionSync

  lemma ConflictMeans(text: string, s: Selector, v: Field, t: Selector, w: Field, f: Path)
    requires Holds(Edited, s, v, text) && Holds(Edited, t, w, text)
    requires f in FieldsOf(text, s) && f in FieldsOf(text, t)
    ensures ValueText(v) == ValueText(w)
  {
    hide Edited, FieldsOf;
    if ValueText(v) != ValueText(w) {
      ConflictingEditsChange(text, s, v, t, w, f);
    }
  }

  /** A scalar that the edit either does not select or already agrees with stays as it is. */
  lemma Kept(v: Value, w: Value, fields: seq<Path>, value: Field, q: Path)
    requires OnlySets(v, w, fields, value)
    requires Get(v, q).Some? && Get(v, q).value.Leaf?
    requires q in fields ==> Wanted(value, Get(v, q).value) == Some(Get(v, q).value.scalar)
    ensures Get(w, q) == Get(v, q)
  {
    hide Get, Wanted;
    if q !in fields {
      forall f | f in fields ensures Beside(f, q) {
        WantedIsLeaf(v, f, value);
        LeavesApart(v, f, q);
        LeavesApart(v, q, f);
      }
      assert Untouched(q, fields);
    }
  }

  lemma {:induction false} PrefixExists(v: Value, p: Path, q: Path)
    requires p <= q && Get(v, q).Some?
    ensures Get(v, p).Some?
    decreases |p|
  {
    if p != [] {
      PrefixExists(if v.Dict? then v.members[p[0].codes] else v.items[p[0].i], p[1..], q[1..]);
    }
  }

  /** A member missing from an object stays missing. */
  lemma StaysAbsent(v: Value, w: Value, fields: seq<Path>, value: Field, r: Path, step: Step)
    requires OnlySets(v, w, fields, value)
    requires Get(v, r).Some? && !Get(v, r).value.Leaf? && Get(v, r + [step]).None?
    ensures Get(w, r + [step]).None?
  {
    hide Get, Wanted;
    var q := r + [step];
    forall f | f in fields ensures Beside(f, q) {
      WantedIsLeaf(v, f, value);
      LeavesApart(v, f, r);
      if q <= f { PrefixExists(v, q, f); }
      assert f <= q ==> f == q || f <= r;
    }
    assert Untouched(q, fields);
  }

  lemma DumpsInjective(m: int, n: int)
    requires DumpsInt(m) == DumpsInt(n)
    ensures m == n
  {
    hide Lex;
    IntRoundTrip(m, "");
    IntRoundTrip(n, "");
  }

  /** Equal demands agree on every scalar one of them accepts as it is. */
  lemma SameDemand(v: Field, w: Field, was: Value)
    requires ValueText(v) == ValueText(w) && Wanted(w, was).Some?
    requires was.Leaf? && Wanted(v, was) == Some(was.scalar)
    ensures Wanted(w, was) == Some(was.scalar)
  {
    if was.scalar.Int? { DumpsInjective(v.n, w.n); }
  }

  /** Selectors that meet in one document meet in every document both accept. */
  lemma StillShared(x: string, z: string, s: Selector, v: Field, t: Selector, w: Field, f: Path) returns (g: Path)
    requires f in FieldsOf(x, s) && f in FieldsOf(x, t)
    requires Holds(Edited, s, v, z) && Holds(Edited, t, w, z)
    ensures g in FieldsOf(z, s) && g in FieldsOf(z, t)
  {
    hide Get, ValueOf, Changes, AddSpans, Codes, ParseDocument;
    if s.NpmLock? && t.NpmLock? {
      g := [VERSION];
    } else {
      g := f;
      var other := if s.JsonField? then s else t;
      var demand := if s.JsonField? then v else w;
      assert f in FieldsOf(z, other);
      if f == [PACKAGES, ROOT, VERSION] {
        UnchangedHolds(z, other, demand, f);
        PrefixExists(DataOf(z), [PACKAGES], f);
      }
    }
  }

  /** On a document where `v` holds, an agreeing edit leaves a checked name alone. */
  lemma NameKept(x: string, z: string, t: Selector, w: Field, q: Path, package: string)
    requires Edited(x, t, w).Some? && Holds(Edited, t, w, z)
    requires t.JsonField? || q !in FieldsOf(x, t)
    requires Get(DataOf(x), q) == Some(Leaf(Str(Codes(package))))
    requires q in FieldsOf(x, t) ==> Get(DataOf(z), q) == Some(Leaf(Str(Codes(package))))
    ensures Get(DataOf(Edited(x, t, w).value.0), q) == Get(DataOf(x), q)
  {
    hide Get, ParseDocument, ValueOf, AddSpans, Changes, Codes, OnlySets;
    EditReplaces(x, t, w);
    if q in FieldsOf(x, t) {
      assert q in FieldsOf(z, t);
      UnchangedHolds(z, t, w, q);
    }
    Kept(DataOf(x), DataOf(Edited(x, t, w).value.0), FieldsOf(x, t), w, q);
  }

  /** What a text that holds a demand says about it. */
  lemma HoldsMeans(text: string, s: Selector, v: Field)
    requires Holds(Edited, s, v, text)
    ensures ParseDocument(text).Some? && Fields(DataOf(text), s) == Some(FieldsOf(text, s))
    ensures forall f | f in FieldsOf(text, s) :: Settled(DataOf(text), f, v)
  {
    hide ParseDocument, ValueOf, AddSpans, Changes, Fields, Get;
    forall f | f in FieldsOf(text, s) ensures Settled(DataOf(text), f, v) {
      UnchangedHolds(text, s, v, f);
    }
  }

  /** ... and what makes it hold. */
  lemma MeansHolds(text: string, s: Selector, v: Field, fields: seq<Path>)
    requires ParseDocument(text).Some? && Fields(DataOf(text), s) == Some(fields)
    requires forall f | f in fields :: Settled(DataOf(text), f, v)
    ensures Holds(Edited, s, v, text)
  {
    hide ParseDocument, ValueOf, AddSpans, Changes, Fields, Get, WellFormed;
    DocumentPrints(text);
    var (b, node) := ParseDocument(text).value;
    NothingToChange(node, b, fields, v);
  }

  /** An agreeing edit keeps a selector's ownership checks and with them its fields. */
  lemma OwnershipKept(x: string, z: string, s: Selector, v: Field, t: Selector, w: Field)
    requires Holds(Edited, s, v, x) && Holds(Edited, s, v, z) && Holds(Edited, t, w, z) && Edited(x, t, w).Some?
    requires forall f | f in FieldsOf(x, s) :: Get(DataOf(Edited(x, t, w).value.0), f) == Get(DataOf(x), f)
    ensures Fields(DataOf(Edited(x, t, w).value.0), s) == Fields(DataOf(x), s)
  {
    hide Get, Codes, Edited, Changes, AddSpans, ParseDocument, ValueOf, FieldsOf, DataOf, OnlySets, Wanted;
    var y := Edited(x, t, w).value.0;
    EditReplaces(x, t, w);
    HoldsMeans(x, s, v);
    HoldsMeans(z, s, v);
    HoldsMeans(z, t, w);
    NamesDiffer();
    if t.NpmLock? { SelectorFields(x, t); }
    assert [] + [NAME] == [NAME];
    if s.NpmLock? || s.package.Some? {
      var package := if s.NpmLock? then s.name else s.package.value;
      NameKept(x, z, t, w, [NAME], package);
      HolderIsObject(DataOf(y), [], NAME);
      RootIsSelf(DataOf(y));
    }
    if s.NpmLock? {
      LockKept(x, z, s.name, v, t, w);
    }
  }

  /** The fields of a lock file are versions, whatever the document. */
  lemma SelectorFields(x: string, t: Selector)
    requires t.NpmLock?
    ensures forall f | f in FieldsOf(x, t) :: f == [VERSION] || f == [PACKAGES, ROOT, VERSION]
  {
    hide Get, ParseDocument, ValueOf;
  }

  lemma LockKept(x: string, z: string, package: string, v: Field, t: Selector, w: Field)
    requires var s := NpmLock(package);
      Holds(Edited, s, v, x) && Holds(Edited, s, v, z) && Holds(Edited, t, w, z) && Edited(x, t, w).Some?
    requires var y := DataOf(Edited(x, t, w).value.0);
      && Named(y, package)
      && forall f | f in FieldsOf(x, NpmLock(package)) :: Get(y, f) == Get(DataOf(x), f)
    ensures Fields(DataOf(Edited(x, t, w).value.0), NpmLock(package)) == Fields(DataOf(x), NpmLock(package))
  {
    hide Get, Codes, Edited, Changes, AddSpans, ParseDocument, ValueOf, FieldsOf, DataOf, OnlySets, Wanted;
    var s := NpmLock(package);
    var (d, e) := (DataOf(x), DataOf(Edited(x, t, w).value.0));
    EditReplaces(x, t, w);
    HoldsMeans(x, s, v);
    HoldsMeans(z, s, v);
    HoldsMeans(z, t, w);
    RootIsSelf(d);
    var own: Path := [PACKAGES, ROOT];
    assert own + [VERSION] == [PACKAGES, ROOT, VERSION] && [PACKAGES] + [ROOT] == own && own + [NAME] == [PACKAGES, ROOT, NAME];
    assert [] + [PACKAGES] == [PACKAGES];
    if Get(d, [PACKAGES]).None? {
      StaysAbsent(d, e, FieldsOf(x, t), w, [], PACKAGES);
    } else {
      assert own + [VERSION] in FieldsOf(x, s);
      assert Settled(d, own + [VERSION], v);
      HolderIsObject(e, own, VERSION);
      HolderIsObject(e, [PACKAGES], ROOT);
      if Get(d, own + [NAME]).None? {
        StaysAbsent(d, e, FieldsOf(x, t), w, own, NAME);
      } else {
        OwnNameShared(x, z, package, v, t, w);
        NameKept(x, z, t, w, own + [NAME], package);
      }
    }
  }

  lemma OwnNameShared(x: string, z: string, package: string, v: Field, t: Selector, w: Field)
    requires Holds(Edited, NpmLock(package), v, z) && Holds(Edited, t, w, z)
    ensures var q := [PACKAGES, ROOT, NAME];
      && (t.JsonField? || q !in FieldsOf(x, t))
      && (q in FieldsOf(x, t) ==> Get(DataOf(z), q) == Some(Leaf(Str(Codes(package)))))
  {
    hide Get, Codes, ParseDocument, ValueOf, AddSpans, Changes;
    var q := [PACKAGES, ROOT, NAME];
    NamesDiffer();
    if t.NpmLock? {
      SelectorFields(x, t);
    } else if q in FieldsOf(x, t) {
      assert q in FieldsOf(z, t);
      UnchangedHolds(z, t, w, q);
      PrefixExists(DataOf(z), [PACKAGES], q);
    }
  }

  /** Where a demand holds, an edit that some document shows to agree with it leaves it held. */
  lemma AgreeingEditKeeps(x: string, z: string, s: Selector, v: Field, t: Selector, w: Field)
    requires Holds(Edited, s, v, x) && Holds(Edited, s, v, z) && Holds(Edited, t, w, z) && Edited(x, t, w).Some?
    ensures Holds(Edited, s, v, Edited(x, t, w).value.0)
  {
    hide Get, Codes, Edited, ParseDocument, ValueOf, FieldsOf, DataOf, OnlySets, Wanted, Fields;
    var y := Edited(x, t, w).value.0;
    EditReplaces(x, t, w);
    HoldsMeans(x, s, v);
    forall f | f in FieldsOf(x, s) ensures Get(DataOf(y), f) == Get(DataOf(x), f) {
      assert Settled(DataOf(x), f, v);
      if f in FieldsOf(x, t) {
        var g := StillShared(x, z, s, v, t, w, f);
        ConflictMeans(z, s, v, t, w, g);
        WantedThere(x, t, w, f);
        SameDemand(v, w, Get(DataOf(x), f).value);
      }
      Kept(DataOf(x), DataOf(y), FieldsOf(x, t), w, f);
    }
    OwnershipKept(x, z, s, v, t, w);
    MeansHolds(y, s, v, FieldsOf(x, s));
  }

  lemma WantedThere(x: string, t: Selector, w: Field, f: Path)
    requires Edited(x, t, w).Some? && f in FieldsOf(x, t)
    ensures Get(DataOf(x), f).Some? && Wanted(w, Get(DataOf(x), f).value).Some?
  {
    hide Get, Codes, Edited, ParseDocument, ValueOf, FieldsOf, DataOf, Wanted;
    EditReplaces(x, t, w);
  }

  /** A demand that some document meets is met by its own edit. */
  lemma EditHolds(x: string, z: string, t: Selector, w: Field)
    requires Holds(Edited, t, w, z) && Edited(x, t, w).Some?
    ensures Holds(Edited, t, w, Edited(x, t, w).value.0)
  {
    hide Get, Edited, ParseDocument, ValueOf, DataOf;
    SecondEdit(x, t, w);
    if NamesItself(t) {
      NamesOwnPackage(z, t, w);
    }
  }

  lemma NamesOwnPackage(z: string, t: Selector, w: Field)
    requires NamesItself(t) && Holds(Edited, t, w, z)
    ensures ValueText(w) == t.package.value
  {
    hide Get, Codes, Edited, ParseDocument, ValueOf;
    HoldsMeans(z, t, w);
    assert NAME == NAME && [NAME] in FieldsOf(z, t);
    UnchangedHolds(z, t, w, [NAME]);
    CodesInjective(ValueText(w), t.package.value);
  }

  /** The JSON editor meets the laws, for every text, selector and value. */
  lemma JsonIsStable()
    ensures Stable(Edited)
  {
    hide Edited;
    forall s: Selector, v: Field, t: Selector, w: Field, x: string |
      Agree(Edited, s, v, t, w) && Edited(x, t, w).Some? && (Holds(Edited, s, v, x) || (s == t && v == w))
      ensures Holds(Edited, s, v, Edited(x, t, w).value.0)
    {
      var z :| Holds(Edited, s, v, z) && Holds(Edited, t, w, z);
      if s == t && v == w {
        EditHolds(x, z, t, w);
      } else {
        AgreeingEditKeeps(x, z, s, v, t, w);
      }
    }
  }

  /** A field of a lock file that its selector may change. */
  predicate LockField(f: Path) { f == [VERSION] || f == [PACKAGES, ROOT, VERSION] }

  /** Whether two selectors change a common field, read off the declarations alone. */
  predicate Meet(s: Selector, t: Selector) {
    if s.JsonField? && t.JsonField? then Names(s.field) == Names(t.field)
    else if s.JsonField? then LockField(Names(s.field))
    else t.NpmLock? || LockField(Names(t.field))
  }

  /** `Meet` is exact: in every document that both edits accept, it says whether they share a field. */
  lemma MeetIsExact(text: string, s: Selector, v: Field, t: Selector, w: Field)
    requires Edited(text, s, v).Some? && Edited(text, t, w).Some?
    ensures Meet(s, t) <==> exists f :: f in FieldsOf(text, s) && f in FieldsOf(text, t)
  {
    hide Edited, Get, ParseDocument, ValueOf, Codes, AddSpans, Changes, FieldsOf;
    FieldsAre(text, s, v);
    FieldsAre(text, t, w);
    if Meet(s, t) {
      var f := if s.JsonField? then Names(s.field) else if t.JsonField? then Names(t.field) else [VERSION];
      assert f in FieldsOf(text, s) && f in FieldsOf(text, t) by {
        if s.NpmLock? && t.JsonField? { InLock(text, s, v, t, w, f); }
        if t.NpmLock? && s.JsonField? { InLock(text, t, w, s, v, f); }
      }
    }
  }

  /** The fields of an accepted selector. */
  lemma FieldsAre(text: string, s: Selector, v: Field)
    requires Edited(text, s, v).Some?
    ensures s.JsonField? ==> FieldsOf(text, s) == [Names(s.field)]
    ensures s.NpmLock? ==> [VERSION] in FieldsOf(text, s) && forall f | f in FieldsOf(text, s) :: LockField(f)
    ensures s.NpmLock? && Get(DataOf(text), [PACKAGES]).Some? ==> [PACKAGES, ROOT, VERSION] in FieldsOf(text, s)
  {
    hide Get, ParseDocument, ValueOf, AddSpans, Changes, Codes;
  }

  /** A lock file that holds the nested field has packages, so its own selector changes that field too. */
  lemma InLock(text: string, s: Selector, v: Field, t: Selector, w: Field, f: Path)
    requires s.NpmLock? && Edited(text, s, v).Some? && Edited(text, t, w).Some?
    requires f in FieldsOf(text, t) && LockField(f)
    ensures f in FieldsOf(text, s)
  {
    hide Edited, Get, FieldsOf, DataOf, Codes;
    FieldsAre(text, s, v);
    if f != [VERSION] {
      WantedThere(text, t, w, f);
      PrefixExists(DataOf(text), [PACKAGES], f);
    }
  }

  /** Two declarations that demand different values of one field of one file are refused,
      whichever comes first and whatever else is declared. */
  lemma ConflictIsRefused(plan: Plan, inputs: seq<Input<Selector>>, files: Files, i: nat, j: nat)
    requires i < |inputs| && j < |inputs| && inputs[i].path == inputs[j].path
    requires Meet(inputs[i].selector, inputs[j].selector)
    requires var (v, w) := (Wants(plan, inputs[i].item), Wants(plan, inputs[j].item));
      v.Some? && w.Some? && ValueText(v.value) != ValueText(w.value)
    ensures Synced(Edited, plan, inputs, files).None?
  {
    hide Fold, Edited, ValueText, Meet, FieldsOf;
    if Synced(Edited, plan, inputs, files).Some? {
      var after := Synced(Edited, plan, inputs, files).value;
      FixedFile(Edited, plan, inputs[i], after);
      FixedFile(Edited, plan, inputs[j], after);
      var text := after[inputs[i].path];
      MeetIsExact(text, inputs[i].selector, Wants(plan, inputs[i].item).value, inputs[j].selector, Wants(plan, inputs[j].item).value);
      var f :| f in FieldsOf(text, inputs[i].selector) && f in FieldsOf(text, inputs[j].selector);
      ConflictMeans(text, inputs[i].selector, Wants(plan, inputs[i].item).value, inputs[j].selector, Wants(plan, inputs[j].item).value, f);
    }
  }
}
