/** Many version edits over many files (`sync_versions` and `verify_checkout` in
    `scripts/version_plan.py`). A format's editor is a partial function from a file's bytes, a
    selector and a value to the new bytes and the values it found; JSON is the instance. */
module VersionSync {
  import opened Text
  import opened VersionPlan
  import opened JsonTree
  import JsonEdit

  /** One declared input: where it is, which fields it selects, what they show. */
  datatype Input<+S> = Input(path: string, selector: S, item: Declaration)

  type Editor<!S> = (string, S, Field) -> Option<(string, seq<Value>)>

  type Files = map<string, string>

  function Wants(plan: Plan, item: Declaration): (value: Option<Field>) {
    if ValidPlan(plan) then ProjectedValue(plan, item) else None
  }

  /** One declared edit of one file's bytes. */
  function EditFile<S>(edit: Editor<S>, plan: Plan, input: Input<S>, bytes: string): (r: Option<string>) {
    var value := Wants(plan, input.item);
    if value.None? then None
    else
      var e := edit(bytes, input.selector, value.value);
      if e.None? then None else Some(e.value.0)
  }

  function Apply<S>(edit: Editor<S>, plan: Plan, input: Input<S>, files: Files): (r: Option<Files>) {
    if input.path !in files then None
    else
      var e := EditFile(edit, plan, input, files[input.path]);
      if e.None? then None else Some(files[input.path := e.value])
  }

  /** All edits, in declaration order. */
  function Fold<S>(edit: Editor<S>, plan: Plan, inputs: seq<Input<S>>, files: Files): (r: Option<Files>) {
    if inputs == [] then Some(files)
    else
      var before := Fold(edit, plan, inputs[..|inputs| - 1], files);
      if before.None? then None else Apply(edit, plan, inputs[|inputs| - 1], before.value)
  }

  /** The edits of one file, in declaration order. */
  function FoldFile<S>(edit: Editor<S>, plan: Plan, inputs: seq<Input<S>>, name: string, bytes: string): (r: Option<string>) {
    if inputs == [] then Some(bytes)
    else
      var k := |inputs| - 1;
      var before := FoldFile(edit, plan, inputs[..k], name, bytes);
      if before.None? || inputs[k].path != name then before else EditFile(edit, plan, inputs[k], before.value)
  }

  predicate Fixed<S>(edit: Editor<S>, plan: Plan, inputs: seq<Input<S>>, files: Files) {
    forall i | 0 <= i < |inputs| :: Apply(edit, plan, inputs[i], files) == Some(files)
  }

  /** What the files become: all edits made, and each of them still in force at the end. */
  function Synced<S>(edit: Editor<S>, plan: Plan, inputs: seq<Input<S>>, files: Files): (r: Option<Files>) {
    var edited := Fold(edit, plan, inputs, files);
    if edited.Some? && Fixed(edit, plan, inputs, edited.value) then edited else None
  }

  function Drift(before: Files, after: Files): (names: set<string>) {
    set name | name in before && name in after && before[name] != after[name]
  }

  /** Accepted by a check: nothing would change. */
  predicate Checked<S>(edit: Editor<S>, plan: Plan, inputs: seq<Input<S>>, files: Files) {
    Synced(edit, plan, inputs, files).Some? && Drift(files, Synced(edit, plan, inputs, files).value) == {}
  }

  class Checkout {
    var files: Files

    constructor (content: Files)
      ensures files == content
    {
      files := content;
    }

    method SyncVersions<S>(edit: Editor<S>, plan: Plan, inputs: seq<Input<S>>, check: bool) returns (drift: Option<set<string>>)
      modifies this
      ensures var after := Synced(edit, plan, inputs, old(files));
        && (drift.Some? <==> after.Some? && (check ==> Checked(edit, plan, inputs, old(files))))
        && (drift.Some? ==> drift.value == Drift(old(files), after.value))
        && files == if drift.Some? && !check then after.value else old(files)
    {
      hide Apply, Synced, Fixed, Checked;
      var edited := files;
      for k := 0 to |inputs|
        invariant files == old(files)
        invariant Fold(edit, plan, inputs[..k], files) == Some(edited)
      {
        FoldStep(edit, plan, inputs, k, files);
        var next := Apply(edit, plan, inputs[k], edited);
        if next.None? {
          NotSynced(edit, plan, inputs, files);
          return None;
        }
        edited := next.value;
      }
      assert inputs[..|inputs|] == inputs;
      NothingFixed(edit, plan, inputs, edited);
      for k := 0 to |inputs|
        invariant files == old(files)
        invariant Fixed(edit, plan, inputs[..k], edited)
      {
        FixedStep(edit, plan, inputs, k, edited);
        if Apply(edit, plan, inputs[k], edited) != Some(edited) {
          NotSynced(edit, plan, inputs, files);
          return None;
        }
      }
      NotSynced(edit, plan, inputs, files);
      var changed := set name | name in files && name in edited && files[name] != edited[name];
      CheckedIsNoDrift(edit, plan, inputs, files);
      if check {
        if changed != {} {
          return None;
        }
      } else {
        files := edited;
      }
      return Some(changed);
    }
  }

  lemma FoldStep<S>(edit: Editor<S>, plan: Plan, inputs: seq<Input<S>>, k: nat, files: Files)
    requires k < |inputs|
    ensures var before := Fold(edit, plan, inputs[..k], files);
      Fold(edit, plan, inputs[..k + 1], files) == if before.None? then None else Apply(edit, plan, inputs[k], before.value)
    ensures Fold(edit, plan, inputs[..k + 1], files).None? ==> Fold(edit, plan, inputs, files).None?
  {
    hide Apply;
    assert inputs[..k + 1][..k] == inputs[..k];
    FoldPrefix(edit, plan, inputs, k + 1, files);
  }

  lemma {:induction false} FoldPrefix<S>(edit: Editor<S>, plan: Plan, inputs: seq<Input<S>>, k: nat, files: Files)
    requires k <= |inputs|
    ensures Fold(edit, plan, inputs[..k], files).None? ==> Fold(edit, plan, inputs, files).None?
    decreases |inputs| - k
  {
    hide Apply;
    if k < |inputs| {
      FoldPrefix(edit, plan, inputs, k + 1, files);
      assert inputs[..k + 1][..k] == inputs[..k];
    } else {
      assert inputs[..k] == inputs;
    }
  }

  lemma NothingFixed<S>(edit: Editor<S>, plan: Plan, inputs: seq<Input<S>>, files: Files)
    ensures Fixed(edit, plan, inputs[..0], files)
  {
  }

  lemma FixedStep<S>(edit: Editor<S>, plan: Plan, inputs: seq<Input<S>>, k: nat, files: Files)
    requires k < |inputs| && Fixed(edit, plan, inputs[..k], files)
    ensures Apply(edit, plan, inputs[k], files) == Some(files) <==> Fixed(edit, plan, inputs[..k + 1], files)
    ensures Apply(edit, plan, inputs[k], files) != Some(files) ==> !Fixed(edit, plan, inputs, files)
    ensures inputs[..|inputs|] == inputs
  {
    hide Apply;
    assert inputs[..k + 1][k] == inputs[k];
    forall i | 0 <= i < k ensures Apply(edit, plan, inputs[i], files) == Some(files) {
      assert inputs[..k][i] == inputs[i];
    }
  }

  lemma NotSynced<S>(edit: Editor<S>, plan: Plan, inputs: seq<Input<S>>, files: Files)
    ensures var edited := Fold(edit, plan, inputs, files);
      Synced(edit, plan, inputs, files) == if edited.Some? && Fixed(edit, plan, inputs, edited.value) then edited else None
  {
    hide Fold, Fixed;
  }

  lemma CheckedIsNoDrift<S>(edit: Editor<S>, plan: Plan, inputs: seq<Input<S>>, files: Files)
    ensures var after := Synced(edit, plan, inputs, files);
      Checked(edit, plan, inputs, files) <==> after.Some? && Drift(files, after.value) == {}
  {
    hide Synced;
  }

  /** A successful run leaves files on which a check reports no drift, and another run
      changes nothing. */
  lemma SyncThenCheck<S>(edit: Editor<S>, plan: Plan, inputs: seq<Input<S>>, files: Files)
    requires Synced(edit, plan, inputs, files).Some?
    ensures var after := Synced(edit, plan, inputs, files).value;
      Synced(edit, plan, inputs, after) == Some(after) && Checked(edit, plan, inputs, after)
  {
    hide Apply;
    var after := Synced(edit, plan, inputs, files).value;
    FixedFolds(edit, plan, inputs, |inputs|, after);
    assert inputs[..|inputs|] == inputs;
  }

  lemma {:induction false} FixedFolds<S>(edit: Editor<S>, plan: Plan, inputs: seq<Input<S>>, k: nat, files: Files)
    requires k <= |inputs| && Fixed(edit, plan, inputs, files)
    ensures Fold(edit, plan, inputs[..k], files) == Some(files)
  {
    hide Apply;
    if k > 0 {
      FixedFolds(edit, plan, inputs, k - 1, files);
      assert inputs[..k][..k - 1] == inputs[..k - 1];
      assert Apply(edit, plan, inputs[k - 1], files) == Some(files);
    }
  }

  // ---------------------------------------------------------------- file by file

  /** The interleaved fold over all files is, on each file, the fold of that file's edits. */
  lemma {:induction false} FoldIsPerFile<S>(edit: Editor<S>, plan: Plan, inputs: seq<Input<S>>, files: Files, name: string)
    requires Fold(edit, plan, inputs, files).Some? && name in files
    ensures var after := Fold(edit, plan, inputs, files).value;
      after.Keys == files.Keys && FoldFile(edit, plan, inputs, name, files[name]) == Some(after[name])
  {
    hide EditFile;
    if inputs != [] {
      FoldIsPerFile(edit, plan, inputs[..|inputs| - 1], files, name);
    }
  }

  /** `verify_checkout` on one file: committed bytes show the base, current bytes are
      either those or the planned ones. */
  predicate FileVerified<S>(edit: Editor<S>, plan: Plan, inputs: seq<Input<S>>, name: string, committed: Files, files: Files) {
    && name in committed && name in files
    && (forall i | 0 <= i < |inputs| && inputs[i].path == name && inputs[i].item.value !in {"build", "apple-build"} ::
      EditFile(edit, BasePlan(plan), inputs[i], committed[name]) == Some(committed[name]))
    && var expected := FoldFile(edit, plan, inputs, name, committed[name]);
    && expected.Some?
    && (files[name] == committed[name] || files[name] == expected.value)
  }

  /** The plan a stable release of the same base would have. */
  function BasePlan(plan: Plan): (p: Plan) {
    plan.(channel := "stable", sequence := NoSequence, version := plan.base, tag := "v" + plan.base)
  }

  predicate Verified<S>(edit: Editor<S>, plan: Plan, inputs: seq<Input<S>>, committed: Files, files: Files) {
    forall i | 0 <= i < |inputs| :: FileVerified(edit, plan, inputs, inputs[i].path, committed, files)
  }

  method VerifyCheckout<S>(edit: Editor<S>, plan: Plan, inputs: seq<Input<S>>, committed: Files, files: Files) returns (ok: bool)
    ensures ok <==> Verified(edit, plan, inputs, committed, files)
  {
    hide EditFile;
    for k := 0 to |inputs|
      invariant forall i | 0 <= i < k :: FileVerified(edit, plan, inputs, inputs[i].path, committed, files)
    {
      var good := VerifyFile(edit, plan, inputs, inputs[k].path, committed, files);
      if !good {
        return false;
      }
    }
    return true;
  }

  method VerifyFile<S>(edit: Editor<S>, plan: Plan, inputs: seq<Input<S>>, name: string, committed: Files, files: Files)
      returns (ok: bool)
    ensures ok <==> FileVerified(edit, plan, inputs, name, committed, files)
  {
    hide EditFile;
    if name !in committed {
      return false;
    }
    var original := committed[name];
    var expected := original;
    for k := 0 to |inputs|
      invariant FoldFile(edit, plan, inputs[..k], name, original) == Some(expected)
      invariant forall i | 0 <= i < k && inputs[i].path == name && inputs[i].item.value !in {"build", "apple-build"} ::
        EditFile(edit, BasePlan(plan), inputs[i], original) == Some(original)
    {
      FileStep(edit, plan, inputs, k, name, original);
      if inputs[k].path == name {
        if inputs[k].item.value !in {"build", "apple-build"} && EditFile(edit, BasePlan(plan), inputs[k], original) != Some(original) {
          return false;
        }
        var next := EditFile(edit, plan, inputs[k], expected);
        if next.None? {
          return false;
        }
        expected := next.value;
      }
    }
    assert inputs[..|inputs|] == inputs;
    return name in files && (files[name] == original || files[name] == expected);
  }

  lemma FileStep<S>(edit: Editor<S>, plan: Plan, inputs: seq<Input<S>>, k: nat, name: string, bytes: string)
    requires k < |inputs|
    ensures var before := FoldFile(edit, plan, inputs[..k], name, bytes);
      FoldFile(edit, plan, inputs[..k + 1], name, bytes) ==
        if before.None? || inputs[k].path != name then before else EditFile(edit, plan, inputs[k], before.value)
    ensures FoldFile(edit, plan, inputs[..k + 1], name, bytes).None? ==> FoldFile(edit, plan, inputs, name, bytes).None?
  {
    hide EditFile;
    assert inputs[..k + 1][..k] == inputs[..k];
    FilePrefix(edit, plan, inputs, k + 1, name, bytes);
  }

  lemma {:induction false} FilePrefix<S>(edit: Editor<S>, plan: Plan, inputs: seq<Input<S>>, k: nat, name: string, bytes: string)
    requires k <= |inputs|
    ensures FoldFile(edit, plan, inputs[..k], name, bytes).None? ==> FoldFile(edit, plan, inputs, name, bytes).None?
    decreases |inputs| - k
  {
    hide EditFile;
    if k < |inputs| {
      FilePrefix(edit, plan, inputs, k + 1, name, bytes);
      assert inputs[..k + 1][..k] == inputs[..k];
    } else {
      assert inputs[..k] == inputs;
    }
  }

  // ---------------------------------------------------------------- laws of an editor

  ghost predicate Holds<S>(edit: Editor<S>, s: S, v: Field, bytes: string) {
    edit(bytes, s, v).Some? && edit(bytes, s, v).value.0 == bytes
  }

  /** Some text meets both demands. */
  ghost predicate Agree<S>(edit: Editor<S>, s: S, v: Field, t: S, w: Field) {
    exists z :: Holds(edit, s, v, z) && Holds(edit, t, w, z)
  }

  /** A demand that can be met is met by its own edit, and no edit whose demand can be met
      together with it undoes it. */
  ghost predicate Stable<S(!new)>(edit: Editor<S>) {
    forall s: S, v: Field, t: S, w: Field, x: string |
      Agree(edit, s, v, t, w) && edit(x, t, w).Some? && (Holds(edit, s, v, x) || (s == t && v == w)) ::
      Holds(edit, s, v, edit(x, t, w).value.0)
  }

  /** Folding over one file ends where all demands hold, if they can hold together. */
  lemma {:induction false} FoldSettles<S(!new)>(
      edit: Editor<S>, plan: Plan, inputs: seq<Input<S>>, name: string, bytes: string, k: nat, z: string, i: nat)
    requires Stable(edit) && i < k <= |inputs| && inputs[i].path == name
    requires FoldFile(edit, plan, inputs[..k], name, bytes).Some?
    requires forall j | 0 <= j < |inputs| && inputs[j].path == name :: EditFile(edit, plan, inputs[j], z) == Some(z)
    ensures EditFile(edit, plan, inputs[i], FoldFile(edit, plan, inputs[..k], name, bytes).value)
      == FoldFile(edit, plan, inputs[..k], name, bytes)
    decreases k
  {
    FileStep(edit, plan, inputs, k - 1, name, bytes);
    var last := inputs[k - 1];
    if i < k - 1 {
      FoldSettles(edit, plan, inputs, name, bytes, k - 1, z, i);
    }
    if last.path == name {
      var (s, v) := (inputs[i].selector, Wants(plan, inputs[i].item).value);
      var (t, w) := (last.selector, Wants(plan, last.item).value);
      assert EditFile(edit, plan, last, z) == Some(z) && EditFile(edit, plan, inputs[i], z) == Some(z);
      assert Holds(edit, s, v, z) && Holds(edit, t, w, z);
      assert Agree(edit, s, v, t, w);
      var x := FoldFile(edit, plan, inputs[..k - 1], name, bytes).value;
      assert i < k - 1 ==> Holds(edit, s, v, x);
    }
  }

  lemma {:induction false} SettledFolds<S>(edit: Editor<S>, plan: Plan, inputs: seq<Input<S>>, name: string, bytes: string)
    requires forall i | 0 <= i < |inputs| && inputs[i].path == name :: EditFile(edit, plan, inputs[i], bytes) == Some(bytes)
    ensures FoldFile(edit, plan, inputs, name, bytes) == Some(bytes)
  {
    hide EditFile;
    if inputs != [] {
      var k := |inputs| - 1;
      forall i | 0 <= i < k && inputs[..k][i].path == name ensures EditFile(edit, plan, inputs[..k][i], bytes) == Some(bytes) {
        assert inputs[..k][i] == inputs[i];
      }
      SettledFolds(edit, plan, inputs[..k], name, bytes);
    }
  }

  /** A verified checkout that is then synchronised is verified again: the files the run
      writes are the ones the verification expects. */
  lemma VerifySyncVerify<S(!new)>(edit: Editor<S>, plan: Plan, inputs: seq<Input<S>>, committed: Files, files: Files)
    requires Stable(edit)
    requires Verified(edit, plan, inputs, committed, files) && Synced(edit, plan, inputs, files).Some?
    ensures Verified(edit, plan, inputs, committed, Synced(edit, plan, inputs, files).value)
  {
    hide Apply, EditFile, FoldFile, Fold;
    var after := Synced(edit, plan, inputs, files).value;
    forall i | 0 <= i < |inputs| ensures FileVerified(edit, plan, inputs, inputs[i].path, committed, after) {
      var name := inputs[i].path;
      assert FileVerified(edit, plan, inputs, name, committed, files);
      FoldIsPerFile(edit, plan, inputs, files, name);
      var expected := FoldFile(edit, plan, inputs, name, committed[name]).value;
      if files[name] == expected {
        forall j | 0 <= j < |inputs| && inputs[j].path == name
          ensures EditFile(edit, plan, inputs[j], after[name]) == Some(after[name])
        {
          FixedFile(edit, plan, inputs[j], after);
        }
        assert inputs[..|inputs|] == inputs;
        forall j | 0 <= j < |inputs| && inputs[j].path == name
          ensures EditFile(edit, plan, inputs[j], expected) == Some(expected)
        {
          FoldSettles(edit, plan, inputs, name, committed[name], |inputs|, after[name], j);
        }
        SettledFolds(edit, plan, inputs, name, expected);
      }
    }
  }

  lemma FixedFile<S>(edit: Editor<S>, plan: Plan, input: Input<S>, files: Files)
    requires Apply(edit, plan, input, files) == Some(files)
    ensures input.path in files && EditFile(edit, plan, input, files[input.path]) == Some(files[input.path])
  {
    hide EditFile;
    if input.path in files && EditFile(edit, plan, input, files[input.path]).Some? {
      var e := EditFile(edit, plan, input, files[input.path]).value;
      assert files[input.path := e][input.path] == e;
    }
  }
}
