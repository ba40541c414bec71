/** What a walk depends on: only the blobs it read or checked for presence. */
module OciReplay {
  import opened Text
  import opened OciGraph

  function Touched(st: Walk): (s: set<Digest>) {
    st.names + st.layers + st.subjects
  }

  predicate Agree(a: map<Digest, Blob>, b: map<Digest, Blob>, s: set<Digest>) {
    forall x | x in s :: x in a && x in b && a[x] == b[x]
  }

  lemma ReplayImage(a: map<Digest, Blob>, b: map<Digest, Blob>, c: Contract, st: Walk, d: Descriptor, doc: Document)
    requires AddImage(a, c, st, d, doc).Some? && Agree(a, b, Touched(AddImage(a, c, st, d, doc).value))
    ensures AddImage(b, c, st, d, doc) == AddImage(a, c, st, d, doc)
  {
    hide RuntimeConfig;
    ImageLayers(a, c, st, d, doc);
    var st' := AddImage(a, c, st, d, doc).value;
    assert doc.config.value.digest in Touched(st');
    assert forall i | 0 <= i < |doc.layers.value| :: doc.layers.value[i].digest in Digests(doc.layers.value);
    assert Digests(doc.layers.value) <= Touched(st');
  }

  lemma ReplayStatements(a: map<Digest, Blob>, b: map<Digest, Blob>, layers: seq<Descriptor>, subject: Digest)
    requires |subject| >= 7 && StatementsOk(a, Some(layers), subject) && Agree(a, b, Digests(layers))
    ensures StatementsOk(b, Some(layers), subject) && PredicateTypes(b, layers) == PredicateTypes(a, layers)
  {
    forall i | 0 <= i < |layers|
      ensures ReadBlob(b, layers[i].digest) == ReadBlob(a, layers[i].digest) && StatementOk(b, layers[i], subject)
    {
      assert layers[i].digest in Digests(layers);
      assert StatementOk(a, layers[i], subject);
    }
  }

  lemma ReplaySubject(a: map<Digest, Blob>, b: map<Digest, Blob>, architecture: string, d: Descriptor, doc: Document)
    requires AttestedSubject(a, architecture, d, doc).Some?
    requires Agree(a, b, {doc.config.value.digest, AttestedSubject(a, architecture, d, doc).value.digest})
    ensures AttestedSubject(b, architecture, d, doc) == AttestedSubject(a, architecture, d, doc)
  {
    hide SubjectPlatform, IsDigest;
  }

  lemma ReplayAttestation(a: map<Digest, Blob>, b: map<Digest, Blob>, c: Contract, st: Walk, d: Descriptor, doc: Document)
    requires AddAttestation(a, c, st, d, doc).Some? && Agree(a, b, Touched(AddAttestation(a, c, st, d, doc).value))
    ensures AddAttestation(b, c, st, d, doc) == AddAttestation(a, c, st, d, doc)
  {
    hide AttestedSubject, StatementsOk, PredicateTypes;
    AttestationPresent(a, c, st, d, doc);
    var st' := AddAttestation(a, c, st, d, doc).value;
    var subject := AttestedSubject(a, c.mode.architecture, d, doc).value;
    assert {doc.config.value.digest, subject.digest} <= Touched(st');
    assert Digests(doc.layers.value) <= Touched(st');
    ReplaySubject(a, b, c.mode.architecture, d, doc);
    ReplayStatements(a, b, doc.layers.value, subject.digest);
  }

  lemma ReplayLeaf(a: map<Digest, Blob>, b: map<Digest, Blob>, c: Contract, st: Walk, d: Descriptor, doc: Document)
    requires AddLeaf(a, c, st, d, doc).Some? && Agree(a, b, Touched(AddLeaf(a, c, st, d, doc).value))
    ensures AddLeaf(b, c, st, d, doc) == AddLeaf(a, c, st, d, doc)
  {
    hide AddImage, AddAttestation, Attests, PlainImage, Agree;
    if Attests(d, doc) {
      assert Touched(AddAttestation(a, c, st, d, doc).value) == Touched(AddLeaf(a, c, st, d, doc).value);
      ReplayAttestation(a, b, c, st, d, doc);
    } else {
      assert Touched(AddImage(a, c, st, d, doc).value) == Touched(AddLeaf(a, c, st, d, doc).value);
      ReplayImage(a, b, c, st, d, doc);
    }
  }

  lemma AgreeLess(a: map<Digest, Blob>, b: map<Digest, Blob>, st: Walk, st': Walk)
    requires Agree(a, b, Touched(st')) && Grows(st, st')
    ensures Agree(a, b, Touched(st))
  {
    assert Touched(st) <= Touched(st');
  }

  lemma ReplayEntry(a: map<Digest, Blob>, b: map<Digest, Blob>, d: Descriptor)
    requires NodeOk(a, d) && d.digest in a && d.digest in b && a[d.digest] == b[d.digest]
    ensures NodeOk(b, d) && ReadBlob(b, d.digest) == ReadBlob(a, d.digest)
  {
  }

  /** A successful walk repeats step for step over any blobs that agree on what it touched. */
  lemma {:induction false} ReplayNode(a: map<Digest, Blob>, b: map<Digest, Blob>, c: Contract, st: Walk, d: Descriptor, depth: nat)
    requires Good(a, c, st) && WalkNode(a, c, st, d, depth).Some?
    requires Agree(a, b, Touched(WalkNode(a, c, st, d, depth).value))
    ensures WalkNode(b, c, st, d, depth) == WalkNode(a, c, st, d, depth)
    decreases Level(depth), 0, 0
  {
    hide Good, NodeOk, AddLeaf;
    var st' := WalkNode(a, c, st, d, depth).value;
    NodeReads(a, d);
    var doc := ReadBlob(a, d.digest).value;
    EnterGood(a, c, st, d);
    assert Grows(Enter(st, d), st') by {
      if d.mediaType == Index {
        IndexGood(a, c, Enter(st, d), doc, depth + 1);
      } else {
        LeafGood(a, c, Enter(st, d), d, doc);
      }
    }
    assert d.digest in Touched(st');
    ReplayEntry(a, b, d);
    if d.mediaType == Index {
      ReplayIndex(a, b, c, Enter(st, d), doc, depth + 1);
    } else {
      ReplayLeaf(a, b, c, Enter(st, d), d, doc);
    }
  }

  lemma {:induction false} ReplayIndex(a: map<Digest, Blob>, b: map<Digest, Blob>, c: Contract, st: Walk, doc: Document, depth: nat)
    requires Good(a, c, st) && WalkIndex(a, c, st, doc, depth).Some?
    requires Agree(a, b, Touched(WalkIndex(a, c, st, doc, depth).value))
    ensures WalkIndex(b, c, st, doc, depth) == WalkIndex(a, c, st, doc, depth)
    decreases Level(depth), 2, 0
  {
    hide Good, NodeOk, AddLeaf;
    ReplayAll(a, b, c, st, doc.manifests.value, depth);
  }

  lemma {:induction false} ReplayAll(a: map<Digest, Blob>, b: map<Digest, Blob>, c: Contract, st: Walk, ds: seq<Descriptor>, depth: nat)
    requires Good(a, c, st) && WalkAll(a, c, st, ds, depth).Some?
    requires Agree(a, b, Touched(WalkAll(a, c, st, ds, depth).value))
    ensures WalkAll(b, c, st, ds, depth) == WalkAll(a, c, st, ds, depth)
    decreases Level(depth), 1, |ds|
  {
    hide Good, NodeOk, AddLeaf, Agree, Touched;
    if ds != [] {
      var first := WalkNode(a, c, st, ds[0], depth).value;
      NodeGood(a, c, st, ds[0], depth);
      AllGood(a, c, first, ds[1..], depth);
      AgreeLess(a, b, first, WalkAll(a, c, st, ds, depth).value);
      ReplayNode(a, b, c, st, ds[0], depth);
      ReplayAll(a, b, c, first, ds[1..], depth);
    }
  }

  lemma EmptyWalkGood(blobs: map<Digest, Blob>, c: Contract)
    ensures Good(blobs, c, EMPTY_WALK)
  {
  }

  lemma FilesGood(f: Files, c: Contract)
    requires WalkFiles(f, c).Some?
    ensures Good(f.blobs, c, WalkFiles(f, c).value)
  {
    hide Good;
    EmptyWalkGood(f.blobs, c);
    IndexGood(f.blobs, c, EMPTY_WALK, RootIndex(f).value, 0);
  }

  /** Replaying an index over other blobs that agree on what the first walk touched. */
  lemma ReplayFiles(f: Files, g: Files, c: Contract)
    requires WalkFiles(f, c).Some? && g.layout == f.layout && g.index == f.index
    requires Agree(f.blobs, g.blobs, Touched(WalkFiles(f, c).value))
    ensures WalkFiles(g, c) == WalkFiles(f, c)
  {
    hide Good, Agree, Touched;
    EmptyWalkGood(f.blobs, c);
    ReplayIndex(f.blobs, g.blobs, c, EMPTY_WALK, RootIndex(f).value, 0);
  }

  /** Every leaf of an accepted input is its one image or an attestation of it. */
  predicate LeafOfInput(blobs: map<Digest, Blob>, c: Contract, st: Walk, leaf: Descriptor)
    requires |st.images| == 1
  {
    || ImageLeaf(blobs, c, leaf, st.images[0])
    || exists a :: a in st.attestations && AttestationLeaf(blobs, c, leaf, a) && a.subject == st.images[0].descriptor
  }

  lemma LeafOfOneImage(blobs: map<Digest, Blob>, c: Contract, st: Walk, leaf: Descriptor)
    requires LeavesExplained(blobs, c, st) && OneImage(st) && leaf in st.leaves
    ensures LeafOfInput(blobs, c, st, leaf)
  {
    hide ImageLeaf, AttestationLeaf;
    if a :| a in st.attestations && AttestationLeaf(blobs, c, leaf, a) {
      assert a.subject == st.images[0].descriptor;
    } else {
      var i :| i in st.images && ImageLeaf(blobs, c, leaf, i);
      assert i == st.images[0];
    }
  }

  lemma OneImageHasLeaf(blobs: map<Digest, Blob>, c: Contract, st: Walk)
    requires ImagesExplained(blobs, c, st) && OneImage(st)
    ensures exists leaf :: leaf in st.leaves && ImageLeaf(blobs, c, leaf, st.images[0])
  {
    hide ImageLeaf;
    assert st.images[0] in st.images;
  }

  /** The facts the native validator promises of an input it accepts: distinct leaves, one image,
      and nothing but that image and attestations of it. */
  lemma AcceptedInput(o: Oracle, f: Files, c: Contract)
    requires c.mode.Native? && Accept(o, f, c).Some?
    ensures var st := Accept(o, f, c).value;
            && DistinctLeaves(st)
            && |st.images| == 1
            && (exists leaf :: leaf in st.leaves && ImageLeaf(f.blobs, c, leaf, st.images[0]))
            && (forall leaf | leaf in st.leaves :: LeafOfInput(f.blobs, c, st, leaf))
  {
    hide ImageLeaf, WalkFiles, LeafOfInput, LeavesExplained, ImagesExplained, TouchedExplained;
    var st := Accept(o, f, c).value;
    FilesGood(f, c);
    OneImageHasLeaf(f.blobs, c, st);
    forall leaf | leaf in st.leaves ensures LeafOfInput(f.blobs, c, st, leaf) {
      LeafOfOneImage(f.blobs, c, st, leaf);
    }
  }

  // ---------------------------------------------------------------- nesting and cycles

  /** Index descriptors, each listed by the index before it. */
  ghost predicate Nested(blobs: map<Digest, Blob>, chain: seq<Descriptor>) {
    && chain != []
    && (forall i | 0 <= i < |chain| :: chain[i].mediaType == Index)
    && (forall i | 0 <= i < |chain| - 1 ::
          && ReadBlob(blobs, chain[i].digest).Some?
          && ReadBlob(blobs, chain[i].digest).value.manifests.Some?
          && chain[i + 1] in ReadBlob(blobs, chain[i].digest).value.manifests.value)
  }

  lemma {:induction false} AllVisited(blobs: map<Digest, Blob>, c: Contract, st: Walk, ds: seq<Descriptor>, depth: nat, d: Descriptor) returns (at: Walk)
    requires WalkAll(blobs, c, st, ds, depth).Some? && d in ds
    ensures WalkNode(blobs, c, at, d, depth).Some?
    decreases |ds|
  {
    hide NodeOk, AddLeaf;
    if d == ds[0] {
      at := st;
    } else {
      at := AllVisited(blobs, c, WalkNode(blobs, c, st, ds[0], depth).value, ds[1..], depth, d);
    }
  }

  /** A successful walk met no more than eight further levels of nesting below any node. */
  lemma {:induction false} NestingIsBounded(blobs: map<Digest, Blob>, c: Contract, st: Walk, chain: seq<Descriptor>, depth: nat)
    requires Nested(blobs, chain) && WalkNode(blobs, c, st, chain[0], depth).Some?
    ensures depth + |chain| - 1 <= MAX_DEPTH
    decreases |chain|
  {
    hide NodeOk, AddLeaf;
    if |chain| > 1 {
      var doc := ReadBlob(blobs, chain[0].digest).value;
      var at := AllVisited(blobs, c, Enter(st, chain[0]), doc.manifests.value, depth + 1, chain[1]);
      NestingIsBounded(blobs, c, at, chain[1..], depth + 1);
    }
  }

  /** Going round a loop once more is again a chain. */
  lemma NestedRound(blobs: map<Digest, Blob>, chain: seq<Descriptor>, loop: seq<Descriptor>)
    requires Nested(blobs, chain) && Nested(blobs, loop) && |loop| > 1
    requires chain[|chain| - 1].digest == loop[0].digest
    ensures Nested(blobs, chain + loop[1..])
  {
    var all := chain + loop[1..];
    forall i | 0 <= i < |all| - 1
      ensures && ReadBlob(blobs, all[i].digest).Some?
              && ReadBlob(blobs, all[i].digest).value.manifests.Some?
              && all[i + 1] in ReadBlob(blobs, all[i].digest).value.manifests.value
    {
      if i >= |chain| - 1 {
        var k := i - (|chain| - 1);
        assert all[i].digest == loop[k].digest && all[i + 1] == loop[k + 1];
      }
    }
  }

  lemma {:induction false} Rounds(blobs: map<Digest, Blob>, loop: seq<Descriptor>, n: nat) returns (chain: seq<Descriptor>)
    requires Nested(blobs, loop) && |loop| > 1 && loop[0].digest == loop[|loop| - 1].digest
    ensures Nested(blobs, chain) && |chain| > n && chain[0] == loop[0] && chain[|chain| - 1].digest == loop[0].digest
  {
    if n == 0 {
      chain := loop;
    } else {
      var shorter := Rounds(blobs, loop, n - 1);
      NestedRound(blobs, shorter, loop);
      chain := shorter + loop[1..];
    }
  }

  /** An index that reaches itself again is never accepted: the walk ends, in a refusal. */
  lemma CyclesAreRefused(blobs: map<Digest, Blob>, c: Contract, st: Walk, loop: seq<Descriptor>, depth: nat)
    requires Nested(blobs, loop) && |loop| > 1 && loop[0].digest == loop[|loop| - 1].digest
    ensures WalkNode(blobs, c, st, loop[0], depth).None?
  {
    hide WalkNode;
    if WalkNode(blobs, c, st, loop[0], depth).Some? {
      var chain := Rounds(blobs, loop, MAX_DEPTH + 1);
      NestingIsBounded(blobs, c, st, chain, depth);
    }
  }
}
