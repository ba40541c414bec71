/** Splitting two native inputs into a runnable archive and a metadata sidecar that must
    replay to the original graphs (scripts/release_provenance.py). */
module Provenance {
  import opened Text
  import opened OciGraph
  import opened OciReplay
  import opened OciArchive
  import opened OciMerge

  const MAX_SIDECAR_BLOBS := 4096

  datatype Original = Original(platform: string, index: Option<Blob>, layout: Option<Blob>)

  /** The detached evidence; `image` stands for the digest of the runnable file. */
  datatype Sidecar = Sidecar(source: string, plan: string, image: Files, indexDigest: Digest,
                             inputs: seq<Original>, blobs: map<Digest, Blob>)

  datatype Collected = Collected(
    descriptors: map<string, Descriptor>, runtime: map<Digest, Blob>, metadata: map<Digest, Blob>, originals: seq<Original>)

  predicate HasProvenance(attestations: seq<Attestation>) {
    exists i | 0 <= i < |attestations| :: attestations[i].predicateTypes * PROVENANCE_TYPES != {}
  }

  /** The first leaf with a digest. */
  function FindLeaf(leaves: seq<Descriptor>, digest: Digest): (d: Option<Descriptor>) {
    if leaves == [] then None
    else if leaves[0].digest == digest then Some(leaves[0])
    else FindLeaf(leaves[1..], digest)
  }

  /** The manifest, config and layers of one image. */
  function ImageNames(blobs: map<Digest, Blob>, leaf: Descriptor): (s: set<Digest>) {
    var doc := ReadBlob(blobs, leaf.digest);
    {leaf.digest} + LayersOf(blobs, leaf.digest)
    + (if doc.Some? && doc.value.config.Some? then {doc.value.config.value.digest} else {})
  }

  function Restrict(blobs: map<Digest, Blob>, names: set<Digest>): (m: map<Digest, Blob>) {
    map d | d in names && d in blobs :: blobs[d]
  }

  predicate Compatible(a: map<Digest, Blob>, b: map<Digest, Blob>) {
    forall d | d in a && d in b :: a[d] == b[d]
  }

  /** One archive's contribution: None where its provenance or image leaf is missing. */
  function ImageLeafOf(st: Walk): (d: Option<Descriptor>) {
    if st.images == [] || !HasProvenance(st.attestations) then None
    else FindLeaf(st.leaves, st.images[0].descriptor.digest)
  }

  function Collect(a: Files, x: Walk, b: Files, y: Walk): (r: Option<Collected>) {
    var la, lb := ImageLeafOf(x), ImageLeafOf(y);
    if la.None? || lb.None? || !Compatible(Restrict(a.blobs, x.names), Restrict(b.blobs, y.names)) then None
    else Some(Collected(
                map["amd64" := la.value, "arm64" := lb.value],
                Restrict(a.blobs, ImageNames(a.blobs, la.value)) + Restrict(b.blobs, ImageNames(b.blobs, lb.value)),
                Restrict(a.blobs, x.names) + Restrict(b.blobs, y.names),
                [Original("amd64", a.index, a.layout), Original("arm64", b.index, b.layout)]))
  }

  /** `runtime_metadata`: the inner index of the two image descriptors, in platform order. */
  function InnerIndex(o: Oracle, descriptors: map<string, Descriptor>): (b: Blob)
    requires "amd64" in descriptors && "arm64" in descriptors
  {
    o.canonical(IndexDocument([descriptors["amd64"], descriptors["arm64"]]))
  }

  function RuntimeFiles(o: Oracle, c: Collected): (f: Files)
    requires "amd64" in c.descriptors && "arm64" in c.descriptors
  {
    var inner := InnerIndex(o, c.descriptors);
    Files(Some(o.canonical(LAYOUT)), Some(o.canonical(IndexDocument([IndexDescriptor(o, inner)]))),
          c.runtime[o.hash(inner) := inner], map[])
  }

  /** The separate validator of the runnable archive. */
  function AcceptRuntime(o: Oracle, f: Files, version: string, revision: string): (r: Option<Walk>) {
    if !Inventoried(o, f.blobs) then None
    else
      var st := WalkFiles(f, Contract(version, revision, Runtime));
      if st.None? || st.value.descriptors.Keys != {"amd64", "arm64"} || |st.value.images| != 2 then None
      else if !CanonicalRuntime(o, f, st.value) then None
      else st
  }

  predicate CanonicalRuntime(o: Oracle, f: Files, st: Walk)
    requires "amd64" in st.descriptors && "arm64" in st.descriptors
  {
    var inner := InnerIndex(o, st.descriptors);
    && f.layout == Some(o.canonical(LAYOUT))
    && f.index == Some(o.canonical(IndexDocument([IndexDescriptor(o, inner)])))
    && o.hash(inner) in f.blobs && f.blobs[o.hash(inner)] == inner
    && f.extensions == map[]
    && f.blobs.Keys == st.names + st.layers
  }

  /** Replaying one original index over the runnable blobs and the sidecar's metadata. */
  function AcceptEvidence(runtime: Files, descriptors: map<string, Descriptor>, metadata: map<Digest, Blob>, item: Original,
                          version: string, revision: string): (r: Option<Walk>) {
    var overlay := Files(item.layout, item.index, runtime.blobs + metadata, runtime.extensions);
    var st := WalkFiles(overlay, Contract(version, revision, Native(item.platform)));
    if st.None? || !OneImage(st.value) || item.platform !in descriptors then None
    else if st.value.images[0].descriptor != KeyOf(descriptors[item.platform]) then None
    else if !HasProvenance(st.value.attestations) then None
    else st
  }

  predicate SidecarBound(o: Oracle, s: Sidecar, source: string, plan: string) {
    && s.source == source && s.plan == plan
    && |s.blobs| <= MAX_SIDECAR_BLOBS
    && Inventoried(o, s.blobs)
    && |s.inputs| == 2 && s.inputs[0].platform == "amd64" && s.inputs[1].platform == "arm64"
  }

  predicate VerifyPair(o: Oracle, f: Files, s: Sidecar, version: string, source: string, plan: string) {
    && SidecarBound(o, s, source, plan)
    && var rt := AcceptRuntime(o, f, version, source);
       && rt.Some?
       && s.image == f && s.indexDigest == o.hash(InnerIndex(o, rt.value.descriptors))
       && var x := AcceptEvidence(f, rt.value.descriptors, s.blobs, s.inputs[0], version, source);
          var y := AcceptEvidence(f, rt.value.descriptors, s.blobs, s.inputs[1], version, source);
          x.Some? && y.Some? && (x.value.names + y.value.names) * s.blobs.Keys == s.blobs.Keys
  }

  function MakeSidecar(o: Oracle, c: Collected, source: string, plan: string): (s: Sidecar)
    requires "amd64" in c.descriptors && "arm64" in c.descriptors
  {
    Sidecar(source, plan, RuntimeFiles(o, c), o.hash(InnerIndex(o, c.descriptors)), c.originals, c.metadata)
  }

  /** `detach` up to linking the two files: prepared, then verified like any other pair. */
  function Detach(o: Oracle, a: Files, b: Files, version: string, source: string, plan: string): (r: Option<(Files, Sidecar)>) {
    var x := Accept(o, a, Contract(version, source, Native("amd64")));
    var y := Accept(o, b, Contract(version, source, Native("arm64")));
    if x.None? || y.None? then None
    else
      var c := Collect(a, x.value, b, y.value);
      if c.None? then None
      else
        var f, s := RuntimeFiles(o, c.value), MakeSidecar(o, c.value, source, plan);
        if VerifyPair(o, f, s, version, source, plan) then Some((f, s)) else None
  }

  // ---------------------------------------------------------------- the loops

  /** Metadata already known under a name must be the same metadata. */
  method AddMetadata(before: map<Digest, Blob>, more: map<Digest, Blob>) returns (r: Option<map<Digest, Blob>>)
    ensures r == if Compatible(before, more) then Some(before + more) else None
  {
    var known := before;
    var todo := more.Keys;
    while todo != {}
      invariant todo <= more.Keys
      invariant known == before + (map d | d in more && d !in todo :: more[d])
      invariant forall d | d in before && d in more && d !in todo :: before[d] == more[d]
      decreases |todo|
    {
      var d :| d in todo;
      OneAdded(before, more, todo, d, known);
      if d in known && known[d] != more[d] {
        return None;
      }
      known := known[d := more[d]];
      todo := todo - {d};
    }
    assert known == before + more;
    return Some(known);
  }

  method CollectRuntimeInputs(archives: seq<Files>, walks: seq<Walk>) returns (r: Option<Collected>)
    requires |archives| == |walks| == 2
    ensures r == Collect(archives[0], walks[0], archives[1], walks[1])
  {
    hide ImageLeafOf, ImageNames, Restrict, Compatible;
    ghost var m0 := Restrict(archives[0].blobs, walks[0].names);
    NothingConflicts(m0);
    var descriptors: map<string, Descriptor> := map[];
    var runtime: map<Digest, Blob>, metadata: map<Digest, Blob> := map[], map[];
    var originals: seq<Original> := [];
    for i := 0 to 2
      invariant i == 0 ==> descriptors == map[] && runtime == map[] && metadata == map[] && originals == []
      invariant i >= 1 ==> ImageLeafOf(walks[0]).Some?
      invariant i == 1 ==> descriptors == map["amd64" := ImageLeafOf(walks[0]).value]
      invariant i == 1 ==> runtime == Restrict(archives[0].blobs, ImageNames(archives[0].blobs, ImageLeafOf(walks[0]).value))
      invariant i == 1 ==> metadata == m0 && originals == [Original("amd64", archives[0].index, archives[0].layout)]
      invariant i == 2 ==> Some(Collected(descriptors, runtime, metadata, originals)) == Collect(archives[0], walks[0], archives[1], walks[1])
    {
      var platform := if i == 0 then "amd64" else "arm64";
      var leaf := ImageLeafOf(walks[i]);
      if leaf.None? {
        return None;
      }
      var known := AddMetadata(metadata, Restrict(archives[i].blobs, walks[i].names));
      if known.None? {
        return None;
      }
      var own := Restrict(archives[i].blobs, ImageNames(archives[i].blobs, leaf.value));
      assert map[] + m0 == m0;
      assert i == 0 ==> runtime + own == own;
      assert i == 1 ==> descriptors["arm64" := leaf.value] == map["amd64" := ImageLeafOf(walks[0]).value, "arm64" := leaf.value];
      assert i == 1 ==> originals + [Original(platform, archives[i].index, archives[i].layout)]
                        == [Original("amd64", archives[0].index, archives[0].layout), Original("arm64", archives[1].index, archives[1].layout)];
      descriptors := descriptors[platform := leaf.value];
      runtime, metadata := runtime + own, known.value;
      originals := originals + [Original(platform, archives[i].index, archives[i].layout)];
    }
    return Some(Collected(descriptors, runtime, metadata, originals));
  }

  lemma NothingConflicts(blobs: map<Digest, Blob>)
    ensures Compatible(map[], blobs)
  {
  }

  method OpenRuntime(o: Oracle, f: Files, version: string, revision: string) returns (r: Option<map<string, Descriptor>>)
    ensures var rt := AcceptRuntime(o, f, version, revision);
            r == if rt.Some? then Some(rt.value.descriptors) else None
    ensures r.Some? ==> "amd64" in r.value && "arm64" in r.value
  {
    hide WalkFiles, Inventoried, InnerIndex;
    if !Inventoried(o, f.blobs) {
      return None;
    }
    var runtime := new Archive(f, Contract(version, revision, Runtime));
    var ok := runtime.Open();
    if !ok || runtime.descriptors.Keys != {"amd64", "arm64"} || |runtime.images| != 2 {
      return None;
    }
    var inner := InnerIndex(o, runtime.descriptors);
    if && f.layout == Some(o.canonical(LAYOUT))
       && f.index == Some(o.canonical(IndexDocument([IndexDescriptor(o, inner)])))
       && o.hash(inner) in f.blobs && f.blobs[o.hash(inner)] == inner
       && f.extensions == map[]
       && f.blobs.Keys == runtime.names + runtime.layers
    {
      return Some(runtime.descriptors);
    }
    return None;
  }

  method ReplayOriginal(runtime: Files, descriptors: map<string, Descriptor>, metadata: map<Digest, Blob>, item: Original,
                        version: string, revision: string) returns (names: Option<set<Digest>>)
    ensures var st := AcceptEvidence(runtime, descriptors, metadata, item, version, revision);
            names == if st.Some? then Some(st.value.names) else None
  {
    hide WalkFiles, HasProvenance;
    var checked := new Archive(Files(item.layout, item.index, runtime.blobs + metadata, runtime.extensions),
                               Contract(version, revision, Native(item.platform)));
    var ok := checked.Open();
    if !ok {
      return None;
    }
    ok := checked.ValidateCompleteGraph();
    if !ok || item.platform !in descriptors || checked.images[0].descriptor != KeyOf(descriptors[item.platform])
       || !HasProvenance(checked.attestations) {
      return None;
    }
    return Some(checked.names);
  }

  method VerifyPairByReplay(o: Oracle, f: Files, s: Sidecar, version: string, source: string, plan: string) returns (ok: bool)
    ensures ok == VerifyPair(o, f, s, version, source, plan)
  {
    hide WalkFiles, Inventoried, HasProvenance, InnerIndex, AcceptEvidence, AcceptRuntime, CanonicalRuntime;
    if !SidecarBound(o, s, source, plan) {
      return false;
    }
    var found := OpenRuntime(o, f, version, source);
    if found.None? {
      return false;
    }
    var descriptors := found.value;
    if s.image != f || s.indexDigest != o.hash(InnerIndex(o, descriptors)) {
      return false;
    }
    var used: set<Digest> := {};
    for i := 0 to 2
      invariant forall k | 0 <= k < i :: AcceptEvidence(f, descriptors, s.blobs, s.inputs[k], version, source).Some?
      invariant i == 0 ==> used == {}
      invariant i == 1 ==> used == AcceptEvidence(f, descriptors, s.blobs, s.inputs[0], version, source).value.names * s.blobs.Keys
      invariant i == 2 ==> used == (AcceptEvidence(f, descriptors, s.blobs, s.inputs[0], version, source).value.names
                                    + AcceptEvidence(f, descriptors, s.blobs, s.inputs[1], version, source).value.names) * s.blobs.Keys
    {
      var names := ReplayOriginal(f, descriptors, s.blobs, s.inputs[i], version, source);
      if names.None? {
        return false;
      }
      used := used + names.value * s.blobs.Keys;
    }
    return used == s.blobs.Keys;
  }

  // ---------------------------------------------------------------- detaching always verifies

  lemma {:induction false} FindsLeaf(leaves: seq<Descriptor>, leaf: Descriptor)
    requires leaf in leaves
    requires forall i, j | 0 <= i < j < |leaves| :: leaves[i].digest != leaves[j].digest
    ensures FindLeaf(leaves, leaf.digest) == Some(leaf)
  {
    if leaves[0] != leaf {
      var k :| 0 <= k < |leaves| && leaves[k] == leaf;
      assert leaves[1..][k - 1] == leaf;
      FindsLeaf(leaves[1..], leaf);
    }
  }

  lemma ImageLeafFound(o: Oracle, f: Files, c: Contract)
    requires c.mode.Native? && Accept(o, f, c).Some? && HasProvenance(Accept(o, f, c).value.attestations)
    ensures var st := Accept(o, f, c).value;
            && ImageLeafOf(st).Some? && st.images != []
            && ImageLeaf(f.blobs, c, ImageLeafOf(st).value, st.images[0])
            && KeyOf(ImageLeafOf(st).value) == st.images[0].descriptor
  {
    hide ImageLeaf, LeafOfInput, WalkFiles, HasProvenance;
    var st := Accept(o, f, c).value;
    AcceptedInput(o, f, c);
    var leaf :| leaf in st.leaves && ImageLeaf(f.blobs, c, leaf, st.images[0]);
    ImageKey(f.blobs, c, leaf, st.images[0]);
    FindsLeaf(st.leaves, leaf);
  }

  /** An accepted image is complete within its own manifest, config and layers. */
  lemma ImageNamesPresent(blobs: map<Digest, Blob>, c: Contract, leaf: Descriptor, i: Image)
    requires ImageLeaf(blobs, c, leaf, i)
    ensures ImageNames(blobs, leaf) <= blobs.Keys
    ensures ImageNames(blobs, leaf) == {leaf.digest, i.config} + LayersOf(blobs, leaf.digest)
    ensures ReadBlob(blobs, leaf.digest).Some?
  {
    var doc := ReadBlob(blobs, leaf.digest).value;
    forall x | x in LayersOf(blobs, leaf.digest) ensures x in blobs {
      var k :| 0 <= k < |doc.layers.value| && doc.layers.value[k].digest == x;
      assert Resolves(blobs, doc.layers.value[k], LAYER_TYPES);
    }
  }

  lemma ImageMoves(a: map<Digest, Blob>, b: map<Digest, Blob>, c: Contract, r: Contract, leaf: Descriptor, i: Image)
    requires ImageLeaf(a, c, leaf, i) && Agree(a, b, ImageNames(a, leaf)) && c.mode.Native?
    requires c.version == r.version && c.revision == r.revision && r.mode.Runtime?
    ensures NodeOk(b, leaf) && ReadBlob(b, leaf.digest) == ReadBlob(a, leaf.digest)
    ensures ImageOk(b, r, c.mode.architecture, leaf, ReadBlob(a, leaf.digest).value)
    ensures leaf.platform.Some? && leaf.platform.value.os == Some("linux")
    ensures leaf.platform.value.architecture == Some(c.mode.architecture)
  {
    hide VariantOk, IsDigest;
    ImageNamesPresent(a, c, leaf, i);
    var doc := ReadBlob(a, leaf.digest).value;
    assert leaf.digest in ImageNames(a, leaf) && i.config in ImageNames(a, leaf);
    forall k | 0 <= k < |doc.layers.value|
      ensures doc.layers.value[k].digest in b && b[doc.layers.value[k].digest] == a[doc.layers.value[k].digest]
    {
      assert doc.layers.value[k].digest in LayersOf(a, leaf.digest);
      assert Resolves(a, doc.layers.value[k], LAYER_TYPES);
    }
  }

  function WithImage(st: Walk, blobs: map<Digest, Blob>, architecture: string, leaf: Descriptor, i: Image): (st': Walk) {
    Walk(st.visited + 1, st.leaves + [leaf], st.images + [i], st.attestations,
         st.names + {leaf.digest} + {i.config}, st.statements, st.layers + LayersOf(blobs, leaf.digest), st.subjects,
         st.descriptors[architecture := leaf])
  }

  /** The runtime validator takes over an image it has not met yet. */
  lemma RuntimeTakes(a: map<Digest, Blob>, b: map<Digest, Blob>, c: Contract, r: Contract, st: Walk, leaf: Descriptor, i: Image)
    requires ImageLeaf(a, c, leaf, i) && Agree(a, b, ImageNames(a, leaf)) && c.mode.Native?
    requires c.version == r.version && c.revision == r.revision && r.mode.Runtime?
    requires c.mode.architecture in PLATFORMS && c.mode.architecture !in st.descriptors
    requires leaf.digest !in Digests(st.leaves) && st.visited + 1 <= MAX_NODES
    ensures WalkNode(b, r, st, leaf, 1) == Some(WithImage(st, a, c.mode.architecture, leaf, i))
  {
    hide NodeOk, ImageOk, Attests, PlainImage;
    ImageMoves(a, b, c, r, leaf, i);
    ImageParts(a, c, leaf, i);
    var doc := ReadBlob(a, leaf.digest).value;
    assert AddImage(b, r, Enter(st, leaf), leaf, doc).Some?;
    ImageLayers(b, r, Enter(st, leaf), leaf, doc);
    ManifestLayers(a, leaf.digest, doc);
  }

  lemma ImageParts(a: map<Digest, Blob>, c: Contract, leaf: Descriptor, i: Image)
    requires ImageLeaf(a, c, leaf, i)
    ensures leaf.mediaType == Manifest && i.descriptor == KeyOf(leaf) && ReadBlob(a, leaf.digest).Some?
    ensures var doc := ReadBlob(a, leaf.digest).value;
            !Attests(leaf, doc) && PlainImage(leaf, doc) && doc.config.Some? && i.config == doc.config.value.digest && doc.layers.Some?
  {
  }

  lemma RuntimeWalkRoot(o: Oracle, u: set<Blob>, f: Files, r: Contract, la: Descriptor, lb: Descriptor)
    requires Lawful(o, u)
    requires var inner := o.canonical(IndexDocument([la, lb]));
             && f.layout == Some(o.canonical(LAYOUT))
             && f.index == Some(o.canonical(IndexDocument([IndexDescriptor(o, inner)])))
             && o.hash(inner) in f.blobs && f.blobs[o.hash(inner)] == inner
    ensures var inner := o.canonical(IndexDocument([la, lb]));
            var st := EMPTY_WALK.(visited := 1, names := {o.hash(inner)});
            var first := WalkNode(f.blobs, r, st, la, 1);
            WalkFiles(f, r) == if first.None? then None else WalkNode(f.blobs, r, first.value, lb, 1)
  {
    hide AddLeaf, IsDigest;
    var inner := o.canonical(IndexDocument([la, lb]));
    var d := IndexDescriptor(o, inner);
    var st := EMPTY_WALK.(visited := 1, names := {o.hash(inner)});
    assert IsDigest(o.hash(inner));
    assert NodeOk(f.blobs, d) && ReadBlob(f.blobs, d.digest) == Some(IndexDocument([la, lb]));
    assert Enter(EMPTY_WALK, d) == st;
    var first := WalkNode(f.blobs, r, st, la, 1);
    assert [la, lb][1..] == [lb] && [lb][1..] == [] && [d][1..] == [];
    WalkTwo(f.blobs, r, st, la, lb);
    assert WalkNode(f.blobs, r, EMPTY_WALK, d, 0) == WalkAll(f.blobs, r, st, [la, lb], 1);
    WalkOne(f.blobs, r, EMPTY_WALK, d);
  }

  lemma WalkTwo(blobs: map<Digest, Blob>, r: Contract, st: Walk, la: Descriptor, lb: Descriptor)
    ensures var first := WalkNode(blobs, r, st, la, 1);
            WalkAll(blobs, r, st, [la, lb], 1) == if first.None? then None else WalkNode(blobs, r, first.value, lb, 1)
  {
    hide WalkNode;
    assert [la, lb][1..] == [lb] && [lb][1..] == [];
    var first := WalkNode(blobs, r, st, la, 1);
    if first.Some? {
      assert WalkAll(blobs, r, st, [la, lb], 1) == WalkAll(blobs, r, first.value, [lb], 1);
      var second := WalkNode(blobs, r, first.value, lb, 1);
      if second.Some? {
        assert WalkAll(blobs, r, second.value, [], 1) == second;
      }
    }
  }

  lemma WalkOne(blobs: map<Digest, Blob>, r: Contract, st: Walk, d: Descriptor)
    ensures WalkAll(blobs, r, st, [d], 0) == WalkNode(blobs, r, st, d, 0)
  {
    hide WalkNode;
    assert [d][1..] == [];
  }

  /** Images of different architectures have different manifests. */
  lemma DistinctImages(o: Oracle, u: set<Blob>, a: map<Digest, Blob>, b: map<Digest, Blob>, c: Contract, d: Contract,
                       la: Descriptor, ia: Image, lb: Descriptor, ib: Image)
    requires Lawful(o, u) && Known(o, u, a) && Known(o, u, b)
    requires ImageLeaf(a, c, la, ia) && ImageLeaf(b, d, lb, ib)
    requires c.mode == Native("amd64") && d.mode == Native("arm64")
    ensures la.digest != lb.digest
  {
    hide VariantOk, IsDigest;
    ImageConfigArchitecture(a, c, la, ia);
    ImageConfigArchitecture(b, d, lb, ib);
    assert "amd64"[1] != "arm64"[1];
  }

  lemma ImageConfigArchitecture(a: map<Digest, Blob>, c: Contract, leaf: Descriptor, i: Image)
    requires ImageLeaf(a, c, leaf, i) && c.mode.Native?
    ensures leaf.digest in a && ReadBlob(a, leaf.digest).Some? && ReadBlob(a, leaf.digest).value.config.Some?
    ensures var config := ReadBlob(a, leaf.digest).value.config.value.digest;
            && config in a && ReadBlob(a, config).Some?
            && ReadBlob(a, config).value.platform.architecture == Some(c.mode.architecture)
  {
  }

  /** All a walk of a one-image input touched is its metadata and that image's layers. */
  lemma TouchedIsCovered(blobs: map<Digest, Blob>, c: Contract, st: Walk)
    requires TouchedExplained(blobs, st) && ImagesExplained(blobs, c, st) && OneImage(st)
    ensures Touched(st) <= st.names + LayersOf(blobs, st.images[0].descriptor.digest)
    ensures Touched(st) <= blobs.Keys
  {
    hide ImageLeaf, LayersOf;
    assert st.images[0] in st.images;
    forall x | x in Touched(st)
      ensures x in st.names + LayersOf(blobs, st.images[0].descriptor.digest)
    {
      if x in st.layers {
        var i :| i in st.images && x in LayersOf(blobs, i.descriptor.digest);
        assert i == st.images[0];
      } else if x in st.subjects {
        var a :| a in st.attestations && a.subject.digest == x;
        assert a.subject == st.images[0].descriptor;
      }
    }
  }

  lemma OverlayAgrees(o: Oracle, u: set<Blob>, blobs: map<Digest, Blob>, runtime: map<Digest, Blob>, metadata: map<Digest, Blob>, s: set<Digest>)
    requires Lawful(o, u) && Known(o, u, blobs) && Known(o, u, runtime) && Known(o, u, metadata)
    requires s <= blobs.Keys && s <= runtime.Keys + metadata.Keys
    ensures Agree(blobs, runtime + metadata, s)
  {
    hide IsDigest;
    forall x | x in s ensures x in runtime + metadata && (runtime + metadata)[x] == blobs[x] {
      assert o.hash(blobs[x]) == x;
      if x in metadata {
        assert o.hash(metadata[x]) == x;
      } else {
        assert o.hash(runtime[x]) == x;
      }
    }
  }

  /** A replay over runnable blobs and metadata ends exactly where the original walk ended. */
  lemma ReplayReachesOriginal(o: Oracle, u: set<Blob>, f: Files, c: Contract, runtime: Files, descriptors: map<string, Descriptor>,
                              metadata: map<Digest, Blob>)
    requires Lawful(o, u) && Known(o, u, f.blobs)
    requires c.mode.Native? && Accept(o, f, c).Some? && Accept(o, f, c).value.images != []
    requires HasProvenance(Accept(o, f, c).value.attestations)
    requires Known(o, u, runtime.blobs) && Known(o, u, metadata)
    requires Accept(o, f, c).value.names <= metadata.Keys
    requires LayersOf(f.blobs, Accept(o, f, c).value.images[0].descriptor.digest) <= runtime.blobs.Keys
    requires c.mode.architecture in descriptors
    requires KeyOf(descriptors[c.mode.architecture]) == Accept(o, f, c).value.images[0].descriptor
    ensures AcceptEvidence(runtime, descriptors, metadata, Original(c.mode.architecture, f.index, f.layout), c.version, c.revision)
         == Accept(o, f, c)
  {
    hide WalkFiles, HasProvenance, LayersOf, LeavesExplained, DistinctLeaves, TouchedExplained, ImagesExplained, Inventoried, Known, Touched, Agree;
    var st := Accept(o, f, c).value;
    FilesGood(f, c);
    var overlay := Files(f.layout, f.index, runtime.blobs + metadata, runtime.extensions);
    TouchedIsCovered(f.blobs, c, st);
    OverlayAgrees(o, u, f.blobs, runtime.blobs, metadata, Touched(st));
    ReplayFiles(f, overlay, c);
  }

  lemma RestrictKnown(o: Oracle, u: set<Blob>, blobs: map<Digest, Blob>, names: set<Digest>)
    requires Known(o, u, blobs)
    ensures Known(o, u, Restrict(blobs, names))
  {
  }

  lemma KnownJoin(o: Oracle, u: set<Blob>, a: map<Digest, Blob>, b: map<Digest, Blob>)
    requires Lawful(o, u) && Known(o, u, a) && Known(o, u, b)
    ensures Known(o, u, a + b) && Compatible(a, b)
  {
  }

  /** Collecting from two accepted inputs with provenance never fails. */
  lemma CollectsBoth(o: Oracle, u: set<Blob>, a: Files, b: Files, ca: Contract, cb: Contract)
    requires Lawful(o, u) && Known(o, u, a.blobs) && Known(o, u, b.blobs)
    requires ca.mode == Native("amd64") && cb.mode == Native("arm64")
    requires Accept(o, a, ca).Some? && HasProvenance(Accept(o, a, ca).value.attestations)
    requires Accept(o, b, cb).Some? && HasProvenance(Accept(o, b, cb).value.attestations)
    ensures Collect(a, Accept(o, a, ca).value, b, Accept(o, b, cb).value).Some?
    ensures var r := Collect(a, Accept(o, a, ca).value, b, Accept(o, b, cb).value).value;
            Known(o, u, r.runtime) && Known(o, u, r.metadata)
  {
    hide WalkFiles, HasProvenance, ImageNames, Inventoried, Known, ImageLeaf, Restrict, Compatible, ImageLeafOf;
    var x, y := Accept(o, a, ca).value, Accept(o, b, cb).value;
    ImageLeafFound(o, a, ca);
    ImageLeafFound(o, b, cb);
    RestrictKnown(o, u, a.blobs, x.names);
    RestrictKnown(o, u, b.blobs, y.names);
    KnownJoin(o, u, Restrict(a.blobs, x.names), Restrict(b.blobs, y.names));
    RestrictKnown(o, u, a.blobs, ImageNames(a.blobs, ImageLeafOf(x).value));
    RestrictKnown(o, u, b.blobs, ImageNames(b.blobs, ImageLeafOf(y).value));
    KnownJoin(o, u, Restrict(a.blobs, ImageNames(a.blobs, ImageLeafOf(x).value)),
                    Restrict(b.blobs, ImageNames(b.blobs, ImageLeafOf(y).value)));
  }

  lemma RestrictAgrees(o: Oracle, u: set<Blob>, a: map<Digest, Blob>, names: set<Digest>, all: map<Digest, Blob>)
    requires Lawful(o, u) && Known(o, u, a) && Known(o, u, all)
    requires names <= a.Keys && Restrict(a, names).Keys <= all.Keys
    ensures Agree(a, all, names)
  {
    hide IsDigest;
    forall x | x in names ensures x in a && x in all && a[x] == all[x] {
      assert x in Restrict(a, names);
      assert o.hash(a[x]) == x && o.hash(all[x]) == x;
    }
  }

  /** What the runtime walk of two taken images ends with. */
  function RuntimeWalk(o: Oracle, a: Files, b: Files, la: Descriptor, ia: Image, lb: Descriptor, ib: Image): (st: Walk) {
    var inner := o.canonical(IndexDocument([la, lb]));
    WithImage(WithImage(EMPTY_WALK.(visited := 1, names := {o.hash(inner)}), a.blobs, "amd64", la, ia), b.blobs, "arm64", lb, ib)
  }

  lemma DigestsOfOne(d: Descriptor)
    ensures Digests([d]) == {d.digest}
  {
    assert [d][0] == d;
  }

  lemma RuntimeWalks(o: Oracle, u: set<Blob>, f: Files, a: Files, b: Files, ca: Contract, cb: Contract,
                     la: Descriptor, ia: Image, lb: Descriptor, ib: Image)
    requires Lawful(o, u) && Known(o, u, a.blobs) && Known(o, u, b.blobs)
    requires ca.mode == Native("amd64") && cb.mode == Native("arm64")
    requires ca.version == cb.version && ca.revision == cb.revision
    requires ImageLeaf(a.blobs, ca, la, ia) && ImageLeaf(b.blobs, cb, lb, ib)
    requires Agree(a.blobs, f.blobs, ImageNames(a.blobs, la)) && Agree(b.blobs, f.blobs, ImageNames(b.blobs, lb))
    requires var inner := o.canonical(IndexDocument([la, lb]));
             && f.layout == Some(o.canonical(LAYOUT))
             && f.index == Some(o.canonical(IndexDocument([IndexDescriptor(o, inner)])))
             && o.hash(inner) in f.blobs && f.blobs[o.hash(inner)] == inner
    ensures WalkFiles(f, Contract(ca.version, ca.revision, Runtime)) == Some(RuntimeWalk(o, a, b, la, ia, lb, ib))
  {
    hide ImageLeaf, ImageNames, LayersOf, WalkFiles, WalkNode, Inventoried, Known, Agree, IsDigest, Lawful;
    var r := Contract(ca.version, ca.revision, Runtime);
    var inner := o.canonical(IndexDocument([la, lb]));
    RuntimeWalkRoot(o, u, f, r, la, lb);
    DistinctImages(o, u, a.blobs, b.blobs, ca, cb, la, ia, lb, ib);
    var st := EMPTY_WALK.(visited := 1, names := {o.hash(inner)});
    RuntimeTakes(a.blobs, f.blobs, ca, r, st, la, ia);
    var mid := WithImage(st, a.blobs, "amd64", la, ia);
    assert "amd64"[1] != "arm64"[1];
    assert mid.leaves == [la];
    DigestsOfOne(la);
    RuntimeTakes(b.blobs, f.blobs, cb, r, mid, lb, ib);
  }

  /** The runtime validator accepts two images laid out with their canonical index and nothing else. */
  lemma RuntimeAccepts(o: Oracle, u: set<Blob>, a: Files, b: Files, ca: Contract, cb: Contract,
                       la: Descriptor, ia: Image, lb: Descriptor, ib: Image, c: Collected)
    requires Lawful(o, u) && Known(o, u, a.blobs) && Known(o, u, b.blobs)
    requires ca.mode == Native("amd64") && cb.mode == Native("arm64")
    requires ca.version == cb.version && ca.revision == cb.revision
    requires ImageLeaf(a.blobs, ca, la, ia) && ImageLeaf(b.blobs, cb, lb, ib)
    requires c.descriptors == map["amd64" := la, "arm64" := lb]
    requires c.runtime == Restrict(a.blobs, ImageNames(a.blobs, la)) + Restrict(b.blobs, ImageNames(b.blobs, lb))
    requires Known(o, u, c.runtime) && o.canonical(IndexDocument([la, lb])) in u
    ensures AcceptRuntime(o, RuntimeFiles(o, c), ca.version, ca.revision) == Some(RuntimeWalk(o, a, b, la, ia, lb, ib))
    ensures RuntimeWalk(o, a, b, la, ia, lb, ib).descriptors == c.descriptors
  {
    hide ImageLeaf, ImageNames, LayersOf, WalkFiles, Inventoried, Known, Agree, Restrict, Lawful;
    var f := RuntimeFiles(o, c);
    var inner := o.canonical(IndexDocument([la, lb]));
    assert "amd64"[1] != "arm64"[1];
    RuntimeInventory(o, u, c);
    ImageNamesPresent(a.blobs, ca, la, ia);
    ImageNamesPresent(b.blobs, cb, lb, ib);
    RestrictKeys(a.blobs, ImageNames(a.blobs, la));
    RestrictKeys(b.blobs, ImageNames(b.blobs, lb));
    RestrictAgrees(o, u, a.blobs, ImageNames(a.blobs, la), f.blobs);
    RestrictAgrees(o, u, b.blobs, ImageNames(b.blobs, lb), f.blobs);
    RuntimeWalks(o, u, f, a, b, ca, cb, la, ia, lb, ib);
    var end := RuntimeWalk(o, a, b, la, ia, lb, ib);
    assert end.descriptors == c.descriptors;
    hide RuntimeWalk;
    assert f.blobs.Keys == end.names + end.layers by { RuntimeKeys(o, a, b, la, ia, lb, ib, c); }
  }

  lemma RuntimeKeys(o: Oracle, a: Files, b: Files, la: Descriptor, ia: Image, lb: Descriptor, ib: Image, c: Collected)
    requires c.descriptors == map["amd64" := la, "arm64" := lb]
    requires c.runtime.Keys == ImageNames(a.blobs, la) + ImageNames(b.blobs, lb)
    requires ImageNames(a.blobs, la) == {la.digest, ia.config} + LayersOf(a.blobs, la.digest)
    requires ImageNames(b.blobs, lb) == {lb.digest, ib.config} + LayersOf(b.blobs, lb.digest)
    ensures var end := RuntimeWalk(o, a, b, la, ia, lb, ib);
      RuntimeFiles(o, c).blobs.Keys == end.names + end.layers
  {
    hide ImageNames, LayersOf;
  }

  lemma RestrictKeys(blobs: map<Digest, Blob>, names: set<Digest>)
    requires names <= blobs.Keys
    ensures Restrict(blobs, names).Keys == names
  {
  }

  lemma RuntimeInventory(o: Oracle, u: set<Blob>, c: Collected)
    requires Lawful(o, u) && Known(o, u, c.runtime) && "amd64" in c.descriptors && "arm64" in c.descriptors
    requires InnerIndex(o, c.descriptors) in u
    ensures Known(o, u, RuntimeFiles(o, c).blobs)
  {
  }

  lemma NamesArePresent(o: Oracle, f: Files, c: Contract)
    requires Accept(o, f, c).Some?
    ensures Accept(o, f, c).value.names <= f.blobs.Keys
  {
    hide WalkFiles, LeavesExplained, ImagesExplained, DistinctLeaves;
    FilesGood(f, c);
  }

  /** The index generated for two accepted inputs is among the blobs at hand. */
  ghost predicate IndexAtHand(o: Oracle, u: set<Blob>, a: Files, b: Files, version: string, source: string) {
    var x := Accept(o, a, Contract(version, source, Native("amd64")));
    var y := Accept(o, b, Contract(version, source, Native("arm64")));
    x.Some? && y.Some? && ImageLeafOf(x.value).Some? && ImageLeafOf(y.value).Some? ==>
      o.canonical(IndexDocument([ImageLeafOf(x.value).value, ImageLeafOf(y.value).value])) in u
  }

  lemma AcceptInventoried(o: Oracle, f: Files, c: Contract)
    requires Accept(o, f, c).Some?
    ensures Inventoried(o, f.blobs)
  {
  }

  /** The pair made from two accepted inputs: what the archive and the sidecar hold, and what replaying them finds. */
  lemma DetachedPair(o: Oracle, u: set<Blob>, a: Files, b: Files, version: string, source: string, plan: string)
    requires Lawful(o, u) && Known(o, u, a.blobs) && Known(o, u, b.blobs)
    requires IndexAtHand(o, u, a, b, version, source)
    requires var ca, cb := Contract(version, source, Native("amd64")), Contract(version, source, Native("arm64"));
             && Accept(o, a, ca).Some? && HasProvenance(Accept(o, a, ca).value.attestations)
             && Accept(o, b, cb).Some? && HasProvenance(Accept(o, b, cb).value.attestations)
    ensures var ca, cb := Contract(version, source, Native("amd64")), Contract(version, source, Native("arm64"));
            var x, y := Accept(o, a, ca).value, Accept(o, b, cb).value;
            && ImageLeafOf(x).Some? && ImageLeafOf(y).Some? && Collect(a, x, b, y).Some?
            && var c := Collect(a, x, b, y).value;
               var f, s := RuntimeFiles(o, c), MakeSidecar(o, c, source, plan);
               // the runnable archive: two images and their canonical index, nothing else
               && f.blobs.Keys == ImageNames(a.blobs, ImageLeafOf(x).value) + ImageNames(b.blobs, ImageLeafOf(y).value)
                                  + {o.hash(InnerIndex(o, c.descriptors))}
               // the sidecar: the metadata either walk read, byte for byte
               && s.blobs == Restrict(a.blobs, x.names) + Restrict(b.blobs, y.names)
               && s.blobs.Keys == x.names + y.names
               // both validators accept, and each replay ends where the original walk ended
               && AcceptRuntime(o, f, version, source).Some?
               && AcceptRuntime(o, f, version, source).value.descriptors == c.descriptors
               && AcceptEvidence(f, c.descriptors, s.blobs, s.inputs[0], version, source) == Accept(o, a, ca)
               && AcceptEvidence(f, c.descriptors, s.blobs, s.inputs[1], version, source) == Accept(o, b, cb)
               && Known(o, u, s.blobs)
  {
    hide WalkFiles, HasProvenance, ImageNames, Inventoried, Known, ImageLeaf, Restrict, Compatible, ImageLeafOf, AcceptRuntime, AcceptEvidence, Accept, Lawful, LayersOf;
    var ca, cb := Contract(version, source, Native("amd64")), Contract(version, source, Native("arm64"));
    var x, y := Accept(o, a, ca).value, Accept(o, b, cb).value;
    assert "amd64"[1] != "arm64"[1];
    ImageLeafFound(o, a, ca);
    ImageLeafFound(o, b, cb);
    CollectsBoth(o, u, a, b, ca, cb);
    var la, lb := ImageLeafOf(x).value, ImageLeafOf(y).value;
    var c := Collect(a, x, b, y).value;
    var f, s := RuntimeFiles(o, c), MakeSidecar(o, c, source, plan);
    RuntimeAccepts(o, u, a, b, ca, cb, la, x.images[0], lb, y.images[0], c);
    RuntimeInventory(o, u, c);
    NamesArePresent(o, a, ca);
    NamesArePresent(o, b, cb);
    RestrictKeys(a.blobs, x.names);
    RestrictKeys(b.blobs, y.names);
    ImageNamesPresent(a.blobs, ca, la, x.images[0]);
    ImageNamesPresent(b.blobs, cb, lb, y.images[0]);
    RestrictKeys(a.blobs, ImageNames(a.blobs, la));
    RestrictKeys(b.blobs, ImageNames(b.blobs, lb));
    ReplayReachesOriginal(o, u, a, ca, f, c.descriptors, s.blobs);
    ReplayReachesOriginal(o, u, b, cb, f, c.descriptors, s.blobs);
  }

  /** Detaching succeeds exactly for two accepted inputs with provenance whose walks read at most 4096 blobs;
      the pair it then makes passes its own verification. */
  lemma DetachSucceedsExactly(o: Oracle, u: set<Blob>, a: Files, b: Files, version: string, source: string, plan: string)
    requires Lawful(o, u)
    requires Inventoried(o, a.blobs) ==> Known(o, u, a.blobs)
    requires Inventoried(o, b.blobs) ==> Known(o, u, b.blobs)
    requires IndexAtHand(o, u, a, b, version, source)
    ensures var x := Accept(o, a, Contract(version, source, Native("amd64")));
            var y := Accept(o, b, Contract(version, source, Native("arm64")));
            Detach(o, a, b, version, source, plan).Some? <==>
              && x.Some? && HasProvenance(x.value.attestations)
              && y.Some? && HasProvenance(y.value.attestations)
              && |x.value.names + y.value.names| <= MAX_SIDECAR_BLOBS
  {
    hide WalkFiles, HasProvenance, ImageNames, Inventoried, Restrict, Compatible, AcceptRuntime, AcceptEvidence, Accept, Lawful, InnerIndex, RuntimeFiles;
    var x := Accept(o, a, Contract(version, source, Native("amd64")));
    var y := Accept(o, b, Contract(version, source, Native("arm64")));
    if x.Some? && HasProvenance(x.value.attestations) && y.Some? && HasProvenance(y.value.attestations) {
      AcceptInventoried(o, a, Contract(version, source, Native("amd64")));
      AcceptInventoried(o, b, Contract(version, source, Native("arm64")));
      DetachedPair(o, u, a, b, version, source, plan);
      var c := Collect(a, x.value, b, y.value).value;
      var s := MakeSidecar(o, c, source, plan);
      assert |s.blobs| == |s.blobs.Keys|;
      assert (x.value.names + y.value.names) * s.blobs.Keys == s.blobs.Keys;
      assert s.inputs[0].platform == "amd64" && s.inputs[1].platform == "arm64" && |s.inputs| == 2;
    }
  }
}
