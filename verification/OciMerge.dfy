/** Merging the two native inputs into one index (scripts/merge_oci_archives.py). */
module OciMerge {
  import opened Text
  import opened OciGraph
  import opened OciReplay
  import opened OciArchive

  const NO_PLATFORM := Platform(None, None, None, false)

  function IndexDocument(manifests: seq<Descriptor>): (d: Document) {
    Document(Some(2), Some(Index), None, Some(manifests), None, None, None, NO_PLATFORM, None, None, None, None, None, false)
  }

  const LAYOUT := Document(None, None, None, None, None, None, None, NO_PLATFORM, None, None, None, None, Some("1.0.0"), false)

  function IndexDescriptor(o: Oracle, inner: Blob): (d: Descriptor) {
    Descriptor(Index, o.hash(inner), inner.size, None, map[], None, false, None)
  }

  // ---------------------------------------------------------------- leaf order

  function OsUnknown(d: Descriptor): (b: bool) {
    d.platform.Some? && d.platform.value.os == Some("unknown")
  }

  function Architecture(d: Descriptor): (s: string) {
    if d.platform.Some? && d.platform.value.architecture.Some? then d.platform.value.architecture.value else ""
  }

  /** Runtime images first, then by architecture, then by digest. */
  predicate Before(x: Descriptor, y: Descriptor) {
    if OsUnknown(x) != OsUnknown(y) then OsUnknown(y)
    else Less(Architecture(x), Architecture(y))
         || (Architecture(x) == Architecture(y) && Less(x.digest, y.digest))
  }

  lemma BeforeTransitive(x: Descriptor, y: Descriptor, z: Descriptor)
    requires Before(x, y) && Before(y, z)
    ensures Before(x, z)
  {
    if Less(Architecture(x), Architecture(y)) && Less(Architecture(y), Architecture(z)) {
      LessTransitive(Architecture(x), Architecture(y), Architecture(z));
    }
    if Less(x.digest, y.digest) && Less(y.digest, z.digest) {
      LessTransitive(x.digest, y.digest, z.digest);
    }
  }

  lemma BeforeAsymmetric(x: Descriptor, y: Descriptor)
    requires Before(x, y)
    ensures !Before(y, x)
  {
    if Before(y, x) {
      BeforeTransitive(x, y, x);
      LessIrreflexive(Architecture(x));
      LessIrreflexive(x.digest);
    }
  }

  lemma BeforeTotal(x: Descriptor, y: Descriptor)
    requires x.digest != y.digest
    ensures Before(x, y) || Before(y, x)
  {
    LessTotal(Architecture(x), Architecture(y));
    LessTotal(x.digest, y.digest);
  }

  /** Insertion after every element that does not come later: the stable sort, one element at a time. */
  function Insert(s: seq<Descriptor>, x: Descriptor): (r: seq<Descriptor>) {
    if s == [] then [x]
    else if Before(x, s[0]) then [x] + s
    else [s[0]] + Insert(s[1..], x)
  }

  function InsertAll(s: seq<Descriptor>, xs: seq<Descriptor>): (r: seq<Descriptor>)
    decreases |xs|
  {
    if xs == [] then s else InsertAll(Insert(s, xs[0]), xs[1..])
  }

  function SortLeaves(xs: seq<Descriptor>): (r: seq<Descriptor>) {
    InsertAll([], xs)
  }

  lemma {:induction false} InsertKeeps(s: seq<Descriptor>, x: Descriptor)
    ensures multiset(Insert(s, x)) == multiset(s) + multiset{x}
  {
    hide Before;
    if s != [] && !Before(x, s[0]) {
      InsertKeeps(s[1..], x);
      assert s == [s[0]] + s[1..];
    }
  }

  /** Sorting loses, adds and repeats nothing. */
  lemma {:induction false} InsertAllKeeps(s: seq<Descriptor>, xs: seq<Descriptor>)
    ensures multiset(InsertAll(s, xs)) == multiset(s) + multiset(xs)
    decreases |xs|
  {
    hide Insert;
    if xs != [] {
      InsertKeeps(s, xs[0]);
      InsertAllKeeps(Insert(s, xs[0]), xs[1..]);
      assert xs == [xs[0]] + xs[1..];
    }
  }

  ghost predicate Ordered(s: seq<Descriptor>) {
    forall i, j | 0 <= i < j < |s| :: !Before(s[j], s[i])
  }

  lemma {:induction false} InsertOrders(s: seq<Descriptor>, x: Descriptor)
    requires Ordered(s)
    ensures Ordered(Insert(s, x))
  {
    if s == [] {
    } else if Before(x, s[0]) {
      forall j | 0 <= j < |s| ensures !Before(s[j], x) {
        if Before(s[j], x) {
          BeforeTransitive(s[j], x, s[0]);
          BeforeAsymmetric(x, s[0]);
        }
      }
    } else {
      InsertOrders(s[1..], x);
      var r := Insert(s[1..], x);
      forall j | 0 <= j < |r| ensures !Before(r[j], s[0]) {
        InsertKeeps(s[1..], x);
        assert r[j] in multiset(r);
        if r[j] != x {
          assert r[j] in s[1..];
        }
      }
    }
  }

  lemma {:induction false} InsertAllOrders(s: seq<Descriptor>, xs: seq<Descriptor>)
    requires Ordered(s)
    ensures Ordered(InsertAll(s, xs))
    decreases |xs|
  {
    if xs != [] {
      InsertOrders(s, xs[0]);
      InsertAllOrders(Insert(s, xs[0]), xs[1..]);
    }
  }

  /** Runtime images come before attestations, and architectures and digests ascend within each. */
  lemma MergedLeavesAreOrdered(xs: seq<Descriptor>)
    ensures Ordered(SortLeaves(xs)) && multiset(SortLeaves(xs)) == multiset(xs)
  {
    InsertAllOrders([], xs);
    InsertAllKeeps([], xs);
  }

  lemma {:induction false} InsertCommutes(s: seq<Descriptor>, x: Descriptor, y: Descriptor)
    requires Before(x, y)
    ensures Insert(Insert(s, x), y) == Insert(Insert(s, y), x)
  {
    hide Before;
    BeforeAsymmetric(x, y);
    if s == [] {
    } else {
      if Before(y, s[0]) {
        BeforeTransitive(x, y, s[0]);
        assert ([x] + s)[1..] == s && ([y] + s)[1..] == s;
      } else if Before(x, s[0]) {
        assert ([x] + s)[1..] == s;
      } else {
        InsertCommutes(s[1..], x, y);
        assert ([s[0]] + Insert(s[1..], x))[1..] == Insert(s[1..], x);
        assert ([s[0]] + Insert(s[1..], y))[1..] == Insert(s[1..], y);
      }
    }
  }

  ghost predicate DistinctDigests(xs: seq<Descriptor>) {
    forall i, j | 0 <= i < j < |xs| :: xs[i].digest != xs[j].digest
  }

  lemma {:induction false} InsertAllSplits(s: seq<Descriptor>, xs: seq<Descriptor>, ys: seq<Descriptor>)
    ensures InsertAll(s, xs + ys) == InsertAll(InsertAll(s, xs), ys)
    decreases |xs|
  {
    hide Insert;
    if xs == [] {
      assert xs + ys == ys;
    } else {
      InsertAllSplits(Insert(s, xs[0]), xs[1..], ys);
      assert (xs + ys)[1..] == xs[1..] + ys;
    }
  }

  /** An element may be inserted before any others with different digests. */
  lemma {:induction false} InsertEarly(s: seq<Descriptor>, xs: seq<Descriptor>, x: Descriptor)
    requires forall i | 0 <= i < |xs| :: xs[i].digest != x.digest
    ensures Insert(InsertAll(s, xs), x) == InsertAll(Insert(s, x), xs)
    decreases |xs|
  {
    hide Before;
    if xs != [] {
      InsertEarly(Insert(s, xs[0]), xs[1..], x);
      BeforeTotal(x, xs[0]);
      if Before(x, xs[0]) {
        InsertCommutes(s, x, xs[0]);
      } else {
        InsertCommutes(s, xs[0], x);
      }
    }
  }

  lemma SameWithout(xs: seq<Descriptor>, ys: seq<Descriptor>, k: nat)
    requires multiset(xs) == multiset(ys) && xs != [] && k < |ys| && ys[k] == xs[0]
    ensures multiset(xs[1..]) == multiset(ys[..k] + ys[k + 1..])
  {
    assert xs == [xs[0]] + xs[1..];
    assert ys == ys[..k] + [xs[0]] + ys[k + 1..];
    assert multiset(xs[1..]) == multiset(xs) - multiset{xs[0]};
    assert multiset(ys[..k] + ys[k + 1..]) == multiset(ys) - multiset{xs[0]};
  }

  lemma OneOut(xs: seq<Descriptor>, ys: seq<Descriptor>) returns (p: seq<Descriptor>, q: seq<Descriptor>)
    requires multiset(xs) == multiset(ys) && xs != [] && DistinctDigests(ys)
    ensures ys == p + [xs[0]] + q && multiset(xs[1..]) == multiset(p + q) && DistinctDigests(p + q)
    ensures forall d | d in p :: d.digest != xs[0].digest
  {
    var k := Found(xs[0], xs, ys);
    p, q := ys[..k], ys[k + 1..];
    SameWithout(xs, ys, k);
    assert forall i | 0 <= i < |p| :: p[i] == ys[i];
    assert forall i | |p| <= i < |p + q| :: (p + q)[i] == ys[i + 1];
  }

  lemma Found(x: Descriptor, xs: seq<Descriptor>, ys: seq<Descriptor>) returns (k: nat)
    requires multiset(xs) == multiset(ys) && x in xs
    ensures k < |ys| && ys[k] == x
  {
    assert x in multiset(ys);
    k :| 0 <= k < |ys| && ys[k] == x;
  }

  lemma {:induction false} InsertAllPermuted(s: seq<Descriptor>, xs: seq<Descriptor>, ys: seq<Descriptor>)
    requires multiset(xs) == multiset(ys) && DistinctDigests(ys)
    ensures InsertAll(s, xs) == InsertAll(s, ys)
    decreases |xs|
  {
    hide Insert, Before;
    if xs == [] {
      assert |multiset(ys)| == |ys|;
      assert ys == [];
    } else {
      var x := xs[0];
      var p, q := OneOut(xs, ys);
      InsertAllPermuted(Insert(s, x), xs[1..], p + q);
      InsertAllSplits(s, p + [x], q);
      InsertAllSplits(s, p, [x]);
      InsertEarly(s, p, x);
      InsertAllSplits(Insert(s, x), p, q);
      assert InsertAll(InsertAll(s, p), [x]) == Insert(InsertAll(s, p), x);
    }
  }

  /** The merged order depends on which leaves each input has, not on where its index lists them. */
  lemma LeafOrderIgnoresInputOrder(a: seq<Descriptor>, b: seq<Descriptor>, a': seq<Descriptor>, b': seq<Descriptor>)
    requires DistinctDigests(a) && DistinctDigests(b)
    requires multiset(a) == multiset(a') && multiset(b) == multiset(b')
    ensures SortLeaves(a + b) == SortLeaves(a' + b')
  {
    hide InsertAll;
    InsertAllSplits([], a, b);
    InsertAllSplits([], a', b');
    InsertAllPermuted([], a', a);
    InsertAllPermuted(InsertAll([], a), b', b);
  }

  // ---------------------------------------------------------------- assembly

  function Merged(o: Oracle, a: Files, b: Files, leaves: seq<Descriptor>): (f: Files) {
    var inner := o.canonical(IndexDocument(SortLeaves(leaves)));
    Files(Some(o.canonical(LAYOUT)), Some(o.canonical(IndexDocument([IndexDescriptor(o, inner)]))),
          (a.blobs + b.blobs)[o.hash(inner) := inner], map[])
  }

  /** Blobs under one name must at least agree in length. */
  predicate Mergeable(a: map<Digest, Blob>, b: map<Digest, Blob>) {
    forall d | d in a && d in b :: a[d].size == b[d].size
  }

  /** A union, one entry at a time. */
  lemma OneAdded<T>(before: map<Digest, T>, more: map<Digest, T>, todo: set<Digest>, d: Digest, sofar: map<Digest, T>)
    requires d in todo && todo <= more.Keys && sofar == before + (map x | x in more && x !in todo :: more[x])
    ensures d in sofar <==> d in before
    ensures d in before ==> sofar[d] == before[d]
    ensures sofar[d := more[d]] == before + (map x | x in more && x !in (todo - {d}) :: more[x])
  {
  }

  method AddBlobs(before: map<Digest, Blob>, more: map<Digest, Blob>) returns (r: Option<map<Digest, Blob>>)
    ensures r == if Mergeable(before, more) then Some(before + more) else None
  {
    var blobs := before;
    var todo := more.Keys;
    while todo != {}
      invariant todo <= more.Keys
      invariant blobs == before + (map d | d in more && d !in todo :: more[d])
      invariant forall d | d in before && d in more && d !in todo :: before[d].size == more[d].size
      decreases |todo|
    {
      var d :| d in todo;
      OneAdded(before, more, todo, d, blobs);
      if d in blobs && blobs[d].size != more[d].size {
        return None;
      }
      blobs := blobs[d := more[d]];
      todo := todo - {d};
    }
    assert blobs == before + more;
    return Some(blobs);
  }

  method CollectBlobs(archives: seq<Files>) returns (r: Option<map<Digest, Blob>>)
    requires |archives| == 2
    ensures r == if Mergeable(archives[0].blobs, archives[1].blobs)
                 then Some(archives[0].blobs + archives[1].blobs) else None
  {
    hide Mergeable;
    NothingToMerge(archives[0].blobs);
    var blobs: map<Digest, Blob> := map[];
    for i := 0 to 2
      invariant i == 0 ==> blobs == map[]
      invariant i == 1 ==> blobs == archives[0].blobs
      invariant i == 2 ==> blobs == archives[0].blobs + archives[1].blobs && Mergeable(archives[0].blobs, archives[1].blobs)
    {
      assert map[] + archives[0].blobs == archives[0].blobs;
      var more := AddBlobs(blobs, archives[i].blobs);
      if more.None? {
        return None;
      }
      blobs := more.value;
    }
    return Some(blobs);
  }

  lemma NothingToMerge(blobs: map<Digest, Blob>)
    ensures Mergeable(map[], blobs)
  {
  }

  /** `merge_archives` up to writing the output file. */
  method MergeArchives(o: Oracle, inputs: map<string, Files>, version: string, revision: string) returns (r: Option<Files>)
    ensures r == MergeResult(o, inputs, version, revision)
  {
    hide WalkFiles, Inventoried, OneImage, Mergeable;
    if inputs.Keys != {"amd64", "arm64"} {
      return None;
    }
    var files: seq<Files>, leaves: seq<Descriptor> := [], [];
    var platforms := PLATFORMS;
    assert platforms == ["amd64", "arm64"];
    for i := 0 to 2
      invariant |files| == i && forall k | 0 <= k < i :: files[k] == inputs[platforms[k]]
      invariant forall k | 0 <= k < i :: Accept(o, files[k], Contract(version, revision, Native(platforms[k]))).Some?
      invariant i == 0 ==> leaves == []
      invariant i == 1 ==> leaves == Accept(o, files[0], Contract(version, revision, Native("amd64"))).value.leaves
      invariant i == 2 ==> leaves == Accept(o, files[0], Contract(version, revision, Native("amd64"))).value.leaves
                                   + Accept(o, files[1], Contract(version, revision, Native("arm64"))).value.leaves
    {
      var f := inputs[platforms[i]];
      if !Inventoried(o, f.blobs) {
        return None;
      }
      var archive := new Archive(f, Contract(version, revision, Native(platforms[i])));
      var ok := archive.Open();
      if !ok {
        return None;
      }
      ok := archive.ValidateCompleteGraph();
      if !ok {
        return None;
      }
      files := files + [f];
      leaves := leaves + archive.leaves;
    }
    var blobs := CollectBlobs(files);
    if blobs.None? {
      return None;
    }
    var inner := o.canonical(IndexDocument(SortLeaves(leaves)));
    r := Some(Files(Some(o.canonical(LAYOUT)), Some(o.canonical(IndexDocument([IndexDescriptor(o, inner)]))),
                    blobs.value[o.hash(inner) := inner], map[]));
  }

  function MergeResult(o: Oracle, inputs: map<string, Files>, version: string, revision: string): (r: Option<Files>) {
    if inputs.Keys != {"amd64", "arm64"} then None
    else
      var a, b := inputs["amd64"], inputs["arm64"];
      var x := Accept(o, a, Contract(version, revision, Native("amd64")));
      var y := Accept(o, b, Contract(version, revision, Native("arm64")));
      if x.None? || y.None? || !Mergeable(a.blobs, b.blobs) then None
      else Some(Merged(o, a, b, x.value.leaves + y.value.leaves))
  }

  // ---------------------------------------------------------------- closure

  /** What one node refers to. */
  function Children(blobs: map<Digest, Blob>, d: Descriptor): (s: seq<Descriptor>) {
    var doc := ReadBlob(blobs, d.digest);
    if doc.None? then []
    else if d.mediaType == Index then (if doc.value.manifests.Some? then doc.value.manifests.value else [])
    else if d.mediaType == Manifest then
      (if doc.value.config.Some? then [doc.value.config.value] else [])
      + (if doc.value.layers.Some? then doc.value.layers.value else [])
      + (if doc.value.subject.Some? then [doc.value.subject.value] else [])
    else []
  }

  ghost predicate Chain(blobs: map<Digest, Blob>, chain: seq<Descriptor>) {
    && chain != []
    && forall i | 0 <= i < |chain| - 1 :: chain[i + 1] in Children(blobs, chain[i])
  }

  /** The descriptor names a blob of the size it declares. */
  predicate Present(blobs: map<Digest, Blob>, d: Descriptor) {
    d.digest in blobs && blobs[d.digest].size == d.size
  }

  /** Everything below an accepted leaf is present, and only its subject has children of its own. */
  ghost predicate LeafClosed(blobs: map<Digest, Blob>, leaf: Descriptor, image: Key) {
    && Present(blobs, leaf) && leaf.mediaType == Manifest
    && forall d | d in Children(blobs, leaf) ::
         Present(blobs, d) && (d.mediaType == Manifest || d.mediaType == Index ==> KeyOf(d) == image)
  }

  lemma ImageLeafClosed(blobs: map<Digest, Blob>, c: Contract, leaf: Descriptor, i: Image)
    requires ImageLeaf(blobs, c, leaf, i)
    ensures LeafClosed(blobs, leaf, i.descriptor)
    ensures forall d | d in Children(blobs, leaf) :: d.mediaType != Manifest && d.mediaType != Index
  {
    hide RuntimeConfig;
    var doc := ReadBlob(blobs, leaf.digest).value;
    forall d | d in Children(blobs, leaf)
      ensures Present(blobs, d) && d.mediaType != Manifest && d.mediaType != Index
    {
      if d != doc.config.value {
        var k :| 0 <= k < |doc.layers.value| && doc.layers.value[k] == d;
        assert Resolves(blobs, doc.layers.value[k], LAYER_TYPES);
      }
    }
  }

  lemma AttestationLeafClosed(blobs: map<Digest, Blob>, c: Contract, leaf: Descriptor, a: Attestation)
    requires AttestationLeaf(blobs, c, leaf, a)
    ensures LeafClosed(blobs, leaf, a.subject)
  {
    hide SubjectPlatform;
    var doc := ReadBlob(blobs, leaf.digest).value;
    forall d | d in Children(blobs, leaf)
      ensures Present(blobs, d) && (d.mediaType == Manifest || d.mediaType == Index ==> KeyOf(d) == a.subject)
    {
      if d in doc.layers.value {
        var k :| 0 <= k < |doc.layers.value| && doc.layers.value[k] == d;
        assert StatementOk(blobs, doc.layers.value[k], a.subject.digest);
      }
    }
  }

  lemma InputLeafClosed(blobs: map<Digest, Blob>, c: Contract, st: Walk, leaf: Descriptor)
    requires OneImage(st) && LeafOfInput(blobs, c, st, leaf)
    ensures LeafClosed(blobs, leaf, st.images[0].descriptor)
  {
    hide ImageLeaf, AttestationLeaf, LeafClosed;
    if ImageLeaf(blobs, c, leaf, st.images[0]) {
      ImageLeafClosed(blobs, c, leaf, st.images[0]);
    } else {
      var a :| a in st.attestations && AttestationLeaf(blobs, c, leaf, a) && a.subject == st.images[0].descriptor;
      AttestationLeafClosed(blobs, c, leaf, a);
    }
  }

  predicate SubBlobs(a: map<Digest, Blob>, b: map<Digest, Blob>) {
    forall d | d in a :: d in b && b[d] == a[d]
  }

  lemma ClosedInLarger(a: map<Digest, Blob>, b: map<Digest, Blob>, leaf: Descriptor, image: Key)
    requires LeafClosed(a, leaf, image) && SubBlobs(a, b)
    ensures LeafClosed(b, leaf, image) && Children(b, leaf) == Children(a, leaf)
  {
  }

  /** Content addressing makes inventoried archives agree wherever they overlap. */
  lemma InventoriesAgree(o: Oracle, u: set<Blob>, a: map<Digest, Blob>, b: map<Digest, Blob>)
    requires Lawful(o, u) && Known(o, u, a) && Known(o, u, b)
    ensures Mergeable(a, b) && SubBlobs(a, a + b) && SubBlobs(b, a + b) && Known(o, u, a + b)
  {
  }

  /** The whole tree below a descriptor is present and at most `n` levels deep. */
  ghost predicate Resolved(blobs: map<Digest, Blob>, d: Descriptor, n: nat)
    decreases n
  {
    Present(blobs, d) && forall child | child in Children(blobs, d) :: n > 0 && Resolved(blobs, child, n - 1)
  }

  lemma MergedKeepsBlobs(o: Oracle, u: set<Blob>, a: Files, b: Files, leaves: seq<Descriptor>)
    requires Lawful(o, u) && Known(o, u, a.blobs) && Known(o, u, b.blobs) && o.canonical(IndexDocument(SortLeaves(leaves))) in u
    ensures SubBlobs(a.blobs, Merged(o, a, b, leaves).blobs) && SubBlobs(b.blobs, Merged(o, a, b, leaves).blobs)
    ensures Inventoried(o, Merged(o, a, b, leaves).blobs)
  {
    hide SortLeaves;
    InventoriesAgree(o, u, a.blobs, b.blobs);
  }

  lemma ImageKey(blobs: map<Digest, Blob>, c: Contract, leaf: Descriptor, i: Image)
    requires ImageLeaf(blobs, c, leaf, i)
    ensures i.descriptor == KeyOf(leaf)
  {
  }

  /** A leaf whose children are present and childless, except for its image, resolves within two levels. */
  lemma ClosedResolves(all: map<Digest, Blob>, leaf: Descriptor, own: Descriptor)
    requires LeafClosed(all, leaf, KeyOf(own)) && LeafClosed(all, own, KeyOf(own))
    requires forall d | d in Children(all, own) :: d.mediaType != Manifest && d.mediaType != Index
    ensures Resolved(all, leaf, 2)
  {
    forall d | d in Children(all, leaf)
      ensures Resolved(all, d, 1)
    {
      if d.mediaType == Manifest || d.mediaType == Index {
        assert Children(all, d) == Children(all, own);
        forall x | x in Children(all, d) ensures Resolved(all, x, 0) {
          assert Children(all, x) == [];
        }
      } else {
        assert Children(all, d) == [];
      }
    }
  }

  lemma ArchiveLeaf(o: Oracle, f: Files, c: Contract, all: map<Digest, Blob>, leaf: Descriptor)
    requires c.mode.Native? && Accept(o, f, c).Some? && SubBlobs(f.blobs, all)
    requires leaf in Accept(o, f, c).value.leaves
    ensures Resolved(all, leaf, 2)
  {
    hide LeafClosed, ImageLeaf, LeafOfInput, WalkFiles, Resolved, Children;
    var st := Accept(o, f, c).value;
    AcceptedInput(o, f, c);
    var image := st.images[0].descriptor;
    InputLeafClosed(f.blobs, c, st, leaf);
    ClosedInLarger(f.blobs, all, leaf, image);
    var own :| own in st.leaves && ImageLeaf(f.blobs, c, own, st.images[0]);
    ImageLeafClosed(f.blobs, c, own, st.images[0]);
    ClosedInLarger(f.blobs, all, own, image);
    ImageKey(f.blobs, c, own, st.images[0]);
    ClosedResolves(all, leaf, own);
  }

  lemma {:induction false} ChainResolves(blobs: map<Digest, Blob>, chain: seq<Descriptor>, n: nat)
    requires Chain(blobs, chain) && Resolved(blobs, chain[0], n)
    ensures Present(blobs, chain[|chain| - 1])
  {
    if |chain| > 1 {
      assert chain[1] in Children(blobs, chain[0]);
      ChainResolves(blobs, chain[1..], n - 1);
    }
  }

  lemma SortKeeps(xs: seq<Descriptor>)
    ensures multiset(SortLeaves(xs)) == multiset(xs)
  {
    InsertAllKeeps([], xs);
  }

  lemma SortedMember(xs: seq<Descriptor>, d: Descriptor)
    ensures d in SortLeaves(xs) <==> d in xs
  {
    SortKeeps(xs);
    assert d in SortLeaves(xs) <==> d in multiset(SortLeaves(xs));
  }

  lemma MergedTree(o: Oracle, u: set<Blob>, a: Files, b: Files, leaves: seq<Descriptor>)
    requires Lawful(o, u) && Known(o, u, a.blobs) && Known(o, u, b.blobs) && o.canonical(IndexDocument(SortLeaves(leaves))) in u
    requires forall leaf | leaf in leaves :: Resolved(Merged(o, a, b, leaves).blobs, leaf, 2)
    ensures var f := Merged(o, a, b, leaves);
            var inner := o.canonical(IndexDocument(SortLeaves(leaves)));
            Resolved(f.blobs, IndexDescriptor(o, inner), 3)
  {
    hide SortLeaves;
    var f := Merged(o, a, b, leaves);
    var inner := o.canonical(IndexDocument(SortLeaves(leaves)));
    var d := IndexDescriptor(o, inner);
    assert ReadBlob(f.blobs, d.digest) == Some(IndexDocument(SortLeaves(leaves)));
    assert Children(f.blobs, d) == SortLeaves(leaves);
    forall leaf | leaf in Children(f.blobs, d) ensures Resolved(f.blobs, leaf, 2) {
      SortedMember(leaves, leaf);
    }
  }

  /** Merging two accepted inputs never meets a conflict, keeps every blob of both under its own digest,
      lists exactly their leaves, and every descriptor reachable from its root names a present blob of its size. */
  lemma MergedArchiveIsComplete(o: Oracle, u: set<Blob>, inputs: map<string, Files>, version: string, revision: string, chain: seq<Descriptor>)
    requires Lawful(o, u) && inputs.Keys == {"amd64", "arm64"}
    requires Accept(o, inputs["amd64"], Contract(version, revision, Native("amd64"))).Some?
    requires Accept(o, inputs["arm64"], Contract(version, revision, Native("arm64"))).Some?
    requires Known(o, u, inputs["amd64"].blobs) && Known(o, u, inputs["arm64"].blobs)
    requires var leaves := Accept(o, inputs["amd64"], Contract(version, revision, Native("amd64"))).value.leaves
                           + Accept(o, inputs["arm64"], Contract(version, revision, Native("arm64"))).value.leaves;
             o.canonical(IndexDocument(SortLeaves(leaves))) in u
    ensures MergeResult(o, inputs, version, revision).Some?
    ensures var f := MergeResult(o, inputs, version, revision).value;
            && SubBlobs(inputs["amd64"].blobs, f.blobs) && SubBlobs(inputs["arm64"].blobs, f.blobs)
            && Inventoried(o, f.blobs)
            && RootIndex(f).Some? && RootIndex(f).value.manifests.Some? && |RootIndex(f).value.manifests.value| == 1
            && multiset(Children(f.blobs, RootIndex(f).value.manifests.value[0]))
               == multiset(Accept(o, inputs["amd64"], Contract(version, revision, Native("amd64"))).value.leaves)
                + multiset(Accept(o, inputs["arm64"], Contract(version, revision, Native("arm64"))).value.leaves)
            && (Chain(f.blobs, chain) && chain[0] == RootIndex(f).value.manifests.value[0] ==>
                  Present(f.blobs, chain[|chain| - 1]))
  {
    hide WalkFiles, Resolved, SubBlobs, OneImage, Inventoried, Known, SortLeaves, Mergeable;
    var a, b := inputs["amd64"], inputs["arm64"];
    var ca, cb := Contract(version, revision, Native("amd64")), Contract(version, revision, Native("arm64"));
    var x, y := Accept(o, a, ca).value, Accept(o, b, cb).value;
    InventoriesAgree(o, u, a.blobs, b.blobs);
    var leaves := x.leaves + y.leaves;
    MergedKeepsBlobs(o, u, a, b, leaves);
    var f := Merged(o, a, b, leaves);
    forall leaf | leaf in leaves ensures Resolved(f.blobs, leaf, 2) {
      if leaf in x.leaves {
        ArchiveLeaf(o, a, ca, f.blobs, leaf);
      } else {
        ArchiveLeaf(o, b, cb, f.blobs, leaf);
      }
    }
    MergedTree(o, u, a, b, leaves);
    SortKeeps(leaves);
    MergedRoot(o, u, a, b, leaves);
    assert MergeResult(o, inputs, version, revision) == Some(f);
    assert multiset(leaves) == multiset(x.leaves) + multiset(y.leaves);
    assert multiset(Children(f.blobs, RootIndex(f).value.manifests.value[0])) == multiset(x.leaves) + multiset(y.leaves);
    if Chain(f.blobs, chain) && chain[0] == RootIndex(f).value.manifests.value[0] {
      ChainResolves(f.blobs, chain, 3);
    }
  }

  lemma MergedRoot(o: Oracle, u: set<Blob>, a: Files, b: Files, leaves: seq<Descriptor>)
    requires Lawful(o, u)
    ensures var f := Merged(o, a, b, leaves);
            var inner := o.canonical(IndexDocument(SortLeaves(leaves)));
            && RootIndex(f) == Some(IndexDocument([IndexDescriptor(o, inner)]))
            && Children(f.blobs, IndexDescriptor(o, inner)) == SortLeaves(leaves)
  {
    hide SortLeaves;
  }
}
