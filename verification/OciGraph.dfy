/** Checked OCI archives and the descriptor walk over their content-addressed graph
    (scripts/merge_oci_archives.py; OCI Image Format Specification, "Image Index" and
    "Content Descriptors"). A blob is known by its length, by the JSON fields the walk
    reads, and by what each layer type unpacks it to. */
module OciGraph {
  import opened Text
  import opened VersionPlan

  type Digest = string

  datatype MediaType =
    | Index | Manifest | Config | EmptyConfig | AttestationManifest | InToto
    | LayerTar | LayerGzip | LayerZstd | OtherType(name: string)

  datatype Platform = Platform(
    os: Option<string>, architecture: Option<string>, variant: Option<string>, special: bool)

  datatype Descriptor = Descriptor(
    mediaType: MediaType, digest: Digest, size: int, platform: Option<Platform>,
    annotations: map<string, string>, artifactType: Option<MediaType>, urls: bool, data: Option<string>)

  datatype Statement = Statement(kind: string, predicateType: string, subjects: seq<string>)

  datatype Document = Document(
    schemaVersion: Option<int>, mediaType: Option<MediaType>, artifactType: Option<MediaType>,
    manifests: Option<seq<Descriptor>>, config: Option<Descriptor>, layers: Option<seq<Descriptor>>,
    subject: Option<Descriptor>, platform: Platform, version: Option<string>, revision: Option<string>,
    diffIds: Option<seq<Digest>>, statement: Option<Statement>, layoutVersion: Option<string>, empty: bool)

  datatype Blob = Blob(size: nat, document: Option<Document>, unpacked: map<MediaType, Digest>)

  /** The members of one archive: two fixed names, the blobs, and ignored extension files. */
  datatype Files = Files(layout: Option<Blob>, index: Option<Blob>, blobs: map<Digest, Blob>, extensions: map<string, Blob>)

  /** SHA-256 and canonical JSON, of which only their laws are used. */
  datatype Oracle = Oracle(hash: Blob -> Digest, canonical: Document -> Blob)

  datatype Mode = Native(architecture: string) | Runtime

  /** What the validator expects of every image, and which of the two validators it is. */
  datatype Contract = Contract(version: string, revision: string, mode: Mode)

  datatype Key = Key(mediaType: MediaType, digest: Digest, size: int)

  datatype Image = Image(descriptor: Key, config: Digest)

  datatype Attestation = Attestation(digest: Digest, subject: Key, predicateTypes: set<string>)

  /** The mutable state of a walk. `layers` and `subjects` are the blobs it only checked for presence. */
  datatype Walk = Walk(
    visited: nat, leaves: seq<Descriptor>, images: seq<Image>, attestations: seq<Attestation>,
    names: set<Digest>, statements: set<Digest>, layers: set<Digest>, subjects: set<Digest>,
    descriptors: map<string, Descriptor>)

  const EMPTY_WALK := Walk(0, [], [], [], {}, {}, {}, {}, map[])
  const MAX_DEPTH := 8
  const MAX_NODES := 1024
  const MAX_LAYERS := 4096
  const LAYER_TYPES := {LayerTar, LayerGzip, LayerZstd}
  const PLATFORMS := ["amd64", "arm64"]
  const REFERENCE_TYPE := "vnd.docker.reference.type"
  const REFERENCE_DIGEST := "vnd.docker.reference.digest"
  const EMPTY_DIGEST := "sha256:44136fa355b3678a1146ad16f7e8649e94fb4fc21fe77e8310c060f61caaff8a"
  const STATEMENT_TYPES := {"https://in-toto.io/Statement/v0.1", "https://in-toto.io/Statement/v1"}
  const PROVENANCE_TYPES := {"https://slsa.dev/provenance/v0.2", "https://slsa.dev/provenance/v1"}

  predicate IsDigest(s: string) {
    |s| == 71 && s[..7] == "sha256:" && IsHex(s[7..], 64)
  }

  /** Hashing has no collision among the blobs `u` at hand, and canonical JSON parses back. */
  ghost predicate Lawful(o: Oracle, u: set<Blob>) {
    && (forall a, b | a in u && b in u :: o.hash(a) == o.hash(b) ==> a == b)
    && (forall a :: IsDigest(o.hash(a)))
    && (forall d :: o.canonical(d).document == Some(d) && o.canonical(d).size > 0)
  }

  /** `inventory`: every blob's name is the digest of its content. */
  predicate Inventoried(o: Oracle, blobs: map<Digest, Blob>) {
    forall d | d in blobs :: IsDigest(d) && o.hash(blobs[d]) == d
  }

  /** An inventoried archive whose blobs are among those at hand. */
  ghost predicate Known(o: Oracle, u: set<Blob>, blobs: map<Digest, Blob>) {
    Inventoried(o, blobs) && forall d | d in blobs :: blobs[d] in u
  }

  function Annotation(d: Descriptor, key: string): (v: Option<string>) {
    if key in d.annotations then Some(d.annotations[key]) else None
  }

  function KeyOf(d: Descriptor): (k: Key) {
    Key(d.mediaType, d.digest, d.size)
  }

  /** `blob`: the descriptor is well formed, of an allowed type, and names a blob of its size. */
  predicate Resolves(blobs: map<Digest, Blob>, d: Descriptor, types: set<MediaType>) {
    && IsDigest(d.digest)
    && d.size >= 0
    && d.mediaType in types
    && !d.urls
    && (d.data.None? || (d.mediaType == EmptyConfig && d.data == Some("e30=")))
    && d.digest in blobs
    && blobs[d.digest].size == d.size
  }

  /** `read_json`, up to its byte budgets. */
  function ReadJson(blob: Option<Blob>): (doc: Option<Document>) {
    if blob.Some? && blob.value.size > 0 then blob.value.document else None
  }

  function ReadBlob(blobs: map<Digest, Blob>, digest: Digest): (doc: Option<Document>) {
    ReadJson(if digest in blobs then Some(blobs[digest]) else None)
  }

  predicate IndexSchema(doc: Document) {
    && doc.schemaVersion == Some(2)
    && (doc.mediaType.None? || doc.mediaType == Some(Index))
    && doc.subject.None? && doc.artifactType.None?
    && doc.manifests.Some? && 0 < |doc.manifests.value| <= MAX_NODES
  }

  predicate Attests(d: Descriptor, doc: Document) {
    || Annotation(d, REFERENCE_TYPE) == Some("attestation-manifest")
    || doc.artifactType == Some(AttestationManifest)
  }

  predicate PlainImage(d: Descriptor, doc: Document) {
    d.artifactType.None? && doc.artifactType.None? && doc.subject.None? && Annotation(d, REFERENCE_TYPE).None?
  }

  function LayerDigest(blobs: map<Digest, Blob>, layer: Descriptor): (d: Option<Digest>) {
    if layer.digest in blobs && layer.mediaType in blobs[layer.digest].unpacked
    then Some(blobs[layer.digest].unpacked[layer.mediaType]) else None
  }

  predicate VariantOk(variant: Option<string>, architecture: string) {
    variant.None? || (architecture == "arm64" && variant == Some("v8"))
  }

  predicate RuntimeConfig(c: Contract, architecture: string, d: Descriptor, details: Document) {
    && d.platform.Some?
    && d.platform.value.os == details.platform.os == Some("linux")
    && d.platform.value.architecture == details.platform.architecture == Some(architecture)
    && VariantOk(d.platform.value.variant, architecture) && VariantOk(details.platform.variant, architecture)
    && !d.platform.value.special && !details.platform.special
    && details.version == Some(c.version) && details.revision == Some(c.revision)
  }

  /** `image`: config, labels, layers and root filesystem all belong together. */
  predicate ImageOk(blobs: map<Digest, Blob>, c: Contract, architecture: string, d: Descriptor, doc: Document) {
    && doc.config.Some? && Resolves(blobs, doc.config.value, {Config})
    && ReadBlob(blobs, doc.config.value.digest).Some?
    && var details := ReadBlob(blobs, doc.config.value.digest).value;
       && RuntimeConfig(c, architecture, d, details)
       && doc.layers.Some? && |doc.layers.value| <= MAX_LAYERS
       && details.diffIds.Some? && |details.diffIds.value| == |doc.layers.value|
       && (forall i | 0 <= i < |doc.layers.value| ::
             && Resolves(blobs, doc.layers.value[i], LAYER_TYPES)
             && IsDigest(details.diffIds.value[i])
             && LayerDigest(blobs, doc.layers.value[i]) == Some(details.diffIds.value[i]))
  }

  function Digests(ds: seq<Descriptor>): (s: set<Digest>) {
    set i | 0 <= i < |ds| :: ds[i].digest
  }

  /** The subject an attestation manifest claims, in its current or its legacy form. */
  function AttestedSubject(blobs: map<Digest, Blob>, architecture: string, d: Descriptor, doc: Document): (k: Option<Key>) {
    var reference := Annotation(d, REFERENCE_DIGEST);
    if !(&& d.platform.Some? && d.platform.value.os == d.platform.value.architecture == Some("unknown")
         && (Annotation(d, REFERENCE_TYPE).None? || Annotation(d, REFERENCE_TYPE) == Some("attestation-manifest"))
         && doc.config.Some? && ReadBlob(blobs, doc.config.value.digest).Some?) then None
    else
      var config, details := doc.config.value, ReadBlob(blobs, doc.config.value.digest).value;
      if doc.artifactType.Some? then
        if && doc.artifactType == Some(AttestationManifest)
           && (d.artifactType.None? || d.artifactType == Some(AttestationManifest))
           && Resolves(blobs, config, {EmptyConfig}) && details.empty && config.size == 2 && config.digest == EMPTY_DIGEST
           && doc.subject.Some? && Resolves(blobs, doc.subject.value, {Manifest})
           && SubjectPlatform(doc.subject.value, architecture)
           && (reference.None? || reference == Some(doc.subject.value.digest))
        then Some(KeyOf(doc.subject.value)) else None
      else
        if && d.artifactType.None? && doc.subject.None?
           && Resolves(blobs, config, {Config}) && details.platform.os == details.platform.architecture == Some("unknown")
           && reference.Some? && IsDigest(reference.value) && reference.value in blobs
        then Some(Key(Manifest, reference.value, blobs[reference.value].size)) else None
  }

  predicate SubjectPlatform(subject: Descriptor, architecture: string) {
    || subject.platform.None?
    || (&& (subject.platform.value.os.None? || subject.platform.value.os == Some("linux"))
        && (subject.platform.value.architecture.None? || subject.platform.value.architecture == Some(architecture)))
  }

  predicate StatementOk(blobs: map<Digest, Blob>, layer: Descriptor, subject: Digest)
    requires |subject| >= 7
  {
    && Resolves(blobs, layer, {InToto})
    && ReadBlob(blobs, layer.digest).Some?
    && var s := ReadBlob(blobs, layer.digest).value.statement;
       s.Some? && s.value.kind in STATEMENT_TYPES && s.value.predicateType != "" && subject[7..] in s.value.subjects
  }

  predicate StatementsOk(blobs: map<Digest, Blob>, layers: Option<seq<Descriptor>>, subject: Digest)
    requires |subject| >= 7
  {
    && layers.Some? && 0 < |layers.value| <= MAX_LAYERS
    && forall i | 0 <= i < |layers.value| :: StatementOk(blobs, layers.value[i], subject)
  }

  function PredicateTypes(blobs: map<Digest, Blob>, layers: seq<Descriptor>): (s: set<string>) {
    set i | 0 <= i < |layers| && ReadBlob(blobs, layers[i].digest).Some?
            && ReadBlob(blobs, layers[i].digest).value.statement.Some?
      :: ReadBlob(blobs, layers[i].digest).value.statement.value.predicateType
  }

  function AddImage(blobs: map<Digest, Blob>, c: Contract, st: Walk, d: Descriptor, doc: Document): (r: Option<Walk>) {
    var architecture :=
      if c.mode.Native? then Some(c.mode.architecture)
      else if d.platform.Some? && d.platform.value.os == Some("linux") && d.platform.value.architecture.Some?
              && d.platform.value.architecture.value in PLATFORMS
              && d.platform.value.architecture.value !in st.descriptors
      then d.platform.value.architecture else None;
    if architecture.None? || !ImageOk(blobs, c, architecture.value, d, doc) then None
    else Some(st.(images := st.images + [Image(KeyOf(d), doc.config.value.digest)],
                  names := st.names + {doc.config.value.digest},
                  layers := st.layers + Digests(doc.layers.value),
                  descriptors := if c.mode.Runtime? then st.descriptors[architecture.value := d] else st.descriptors))
  }

  function AddAttestation(blobs: map<Digest, Blob>, c: Contract, st: Walk, d: Descriptor, doc: Document): (r: Option<Walk>) {
    if c.mode.Runtime? then None
    else
      var subject := AttestedSubject(blobs, c.mode.architecture, d, doc);
      if subject.None? || !IsDigest(subject.value.digest) || !StatementsOk(blobs, doc.layers, subject.value.digest) then None
      else Some(st.(attestations := st.attestations + [Attestation(d.digest, subject.value, PredicateTypes(blobs, doc.layers.value))],
                    names := st.names + {doc.config.value.digest} + Digests(doc.layers.value),
                    statements := st.statements + Digests(doc.layers.value),
                    subjects := st.subjects + {subject.value.digest}))
  }

  /** A manifest met by the walk: an image or an attestation, and never the same one twice. */
  function AddLeaf(blobs: map<Digest, Blob>, c: Contract, st: Walk, d: Descriptor, doc: Document): (r: Option<Walk>) {
    var added := if Attests(d, doc) then AddAttestation(blobs, c, st, d, doc)
                 else if PlainImage(d, doc) then AddImage(blobs, c, st, d, doc)
                 else None;
    if added.None? || d.digest in Digests(added.value.leaves) then None
    else Some(added.value.(leaves := added.value.leaves + [d]))
  }

  /** What `walk` records before it looks inside a node. */
  function Enter(st: Walk, d: Descriptor): (st': Walk) {
    st.(visited := st.visited + 1, names := st.names + {d.digest})
  }

  predicate NodeOk(blobs: map<Digest, Blob>, d: Descriptor) {
    && Resolves(blobs, d, {Index, Manifest})
    && ReadBlob(blobs, d.digest).Some?
    && ReadBlob(blobs, d.digest).value.schemaVersion == Some(2)
    && (var t := ReadBlob(blobs, d.digest).value.mediaType; t.None? || t == Some(d.mediaType))
  }

  function Level(depth: nat): (n: nat) {
    if depth <= MAX_DEPTH then MAX_DEPTH + 1 - depth else 0
  }

  function WalkNode(blobs: map<Digest, Blob>, c: Contract, st: Walk, d: Descriptor, depth: nat): (r: Option<Walk>)
    decreases Level(depth), 0, 0
  {
    if depth > MAX_DEPTH || st.visited + 1 > MAX_NODES || !NodeOk(blobs, d) then None
    else
      var doc := ReadBlob(blobs, d.digest).value;
      if d.mediaType == Index then WalkIndex(blobs, c, Enter(st, d), doc, depth + 1)
      else AddLeaf(blobs, c, Enter(st, d), d, doc)
  }

  function WalkIndex(blobs: map<Digest, Blob>, c: Contract, st: Walk, doc: Document, depth: nat): (r: Option<Walk>)
    decreases Level(depth), 2, 0
  {
    if IndexSchema(doc) then WalkAll(blobs, c, st, doc.manifests.value, depth) else None
  }

  function WalkAll(blobs: map<Digest, Blob>, c: Contract, st: Walk, ds: seq<Descriptor>, depth: nat): (r: Option<Walk>)
    decreases Level(depth), 1, |ds|
  {
    if ds == [] then Some(st)
    else
      var first := WalkNode(blobs, c, st, ds[0], depth);
      if first.None? then None else WalkAll(blobs, c, first.value, ds[1..], depth)
  }

  /** The layout and root index every archive must carry. */
  function RootIndex(f: Files): (doc: Option<Document>) {
    var layout := ReadJson(f.layout);
    if layout.None? || layout.value.layoutVersion != Some("1.0.0") then None else ReadJson(f.index)
  }

  predicate OneImage(st: Walk) {
    |st.images| == 1 && forall a | a in st.attestations :: a.subject == st.images[0].descriptor
  }

  function WalkFiles(f: Files, c: Contract): (r: Option<Walk>) {
    var root := RootIndex(f);
    if root.None? then None else WalkIndex(f.blobs, c, EMPTY_WALK, root.value, 0)
  }

  /** The native-input validator as a whole. */
  function Accept(o: Oracle, f: Files, c: Contract): (r: Option<Walk>) {
    if !Inventoried(o, f.blobs) then None
    else
      var st := WalkFiles(f, c);
      if st.None? || !OneImage(st.value) then None else st
  }

  // ---------------------------------------------------------------- what a walk establishes

  predicate Grows(a: Walk, b: Walk) {
    && a.visited <= b.visited
    && a.leaves <= b.leaves && a.images <= b.images && a.attestations <= b.attestations
    && a.names <= b.names && a.statements <= b.statements && a.layers <= b.layers && a.subjects <= b.subjects
  }

  /** A leaf the walk accepted as the image `i`. */
  predicate ImageLeaf(blobs: map<Digest, Blob>, c: Contract, leaf: Descriptor, i: Image) {
    && NodeOk(blobs, leaf) && leaf.mediaType == Manifest
    && i.descriptor == KeyOf(leaf)
    && var doc := ReadBlob(blobs, leaf.digest).value;
       && !Attests(leaf, doc) && PlainImage(leaf, doc)
       && leaf.platform.Some? && leaf.platform.value.architecture.Some?
       && (c.mode.Native? ==> leaf.platform.value.architecture == Some(c.mode.architecture))
       && ImageOk(blobs, c, leaf.platform.value.architecture.value, leaf, doc)
       && i.config == doc.config.value.digest
  }

  /** A leaf the walk accepted as the attestation `a`. */
  predicate AttestationLeaf(blobs: map<Digest, Blob>, c: Contract, leaf: Descriptor, a: Attestation) {
    && c.mode.Native?
    && NodeOk(blobs, leaf) && leaf.mediaType == Manifest
    && a.digest == leaf.digest
    && IsDigest(a.subject.digest)
    && var doc := ReadBlob(blobs, leaf.digest).value;
       && Attests(leaf, doc)
       && AttestedSubject(blobs, c.mode.architecture, leaf, doc) == Some(a.subject)
       && StatementsOk(blobs, doc.layers, a.subject.digest)
  }

  function LayersOf(blobs: map<Digest, Blob>, digest: Digest): (s: set<Digest>) {
    var doc := ReadBlob(blobs, digest);
    if doc.Some? && doc.value.layers.Some? then Digests(doc.value.layers.value) else {}
  }

  ghost predicate DistinctLeaves(st: Walk) {
    forall i, j | 0 <= i < j < |st.leaves| :: st.leaves[i].digest != st.leaves[j].digest
  }

  ghost predicate LeavesExplained(blobs: map<Digest, Blob>, c: Contract, st: Walk) {
    forall leaf | leaf in st.leaves ::
      || (exists i :: i in st.images && ImageLeaf(blobs, c, leaf, i))
      || (exists a :: a in st.attestations && AttestationLeaf(blobs, c, leaf, a))
  }

  ghost predicate ImagesExplained(blobs: map<Digest, Blob>, c: Contract, st: Walk) {
    forall i | i in st.images ::
      && i.descriptor.digest in st.names && i.config in st.names
      && LayersOf(blobs, i.descriptor.digest) <= st.layers
      && exists leaf :: leaf in st.leaves && ImageLeaf(blobs, c, leaf, i)
  }

  ghost predicate TouchedExplained(blobs: map<Digest, Blob>, st: Walk) {
    && (forall x | x in st.layers :: exists i :: i in st.images && x in LayersOf(blobs, i.descriptor.digest))
    && (forall x | x in st.subjects :: exists a :: a in st.attestations && a.subject.digest == x)
    && st.names <= blobs.Keys && st.layers <= blobs.Keys && st.subjects <= blobs.Keys
  }

  ghost predicate Good(blobs: map<Digest, Blob>, c: Contract, st: Walk) {
    && DistinctLeaves(st) && LeavesExplained(blobs, c, st) && ImagesExplained(blobs, c, st) && TouchedExplained(blobs, st)
  }

  lemma GrowsTransitive(a: Walk, b: Walk, c: Walk)
    requires Grows(a, b) && Grows(b, c)
    ensures Grows(a, c)
  {
  }

  lemma ImageLayers(blobs: map<Digest, Blob>, c: Contract, st: Walk, d: Descriptor, doc: Document)
    requires AddImage(blobs, c, st, d, doc).Some?
    ensures doc.config.Some? && doc.layers.Some?
    ensures forall x | x in Digests(doc.layers.value) :: x in blobs
    ensures doc.config.value.digest in blobs
  {
  }

  /** Adding an image leaf keeps the account of the walk. */
  lemma ImageLeafGood(blobs: map<Digest, Blob>, c: Contract, st: Walk, d: Descriptor, doc: Document)
    requires Good(blobs, c, st) && NodeOk(blobs, d) && d.mediaType == Manifest && d.digest in st.names
    requires ReadBlob(blobs, d.digest) == Some(doc) && !Attests(d, doc) && PlainImage(d, doc)
    requires AddImage(blobs, c, st, d, doc).Some? && d.digest !in Digests(st.leaves)
    ensures var st' := AddImage(blobs, c, st, d, doc).value.(leaves := st.leaves + [d]);
            Good(blobs, c, st') && Grows(st, st')
  {
    hide ImageOk, NodeOk, Attests, PlainImage, ImageLeaf, AttestationLeaf, LeavesExplained, ImagesExplained, TouchedExplained, LayersOf;
    var st' := AddImage(blobs, c, st, d, doc).value.(leaves := st.leaves + [d]);
    ImageLayers(blobs, c, st, d, doc);
    var i := Image(KeyOf(d), doc.config.value.digest);
    NewImageLeaf(blobs, c, st, d, doc);
    assert LayersOf(blobs, d.digest) == Digests(doc.layers.value) by { ManifestLayers(blobs, d.digest, doc); }
    LeavesGrow(blobs, c, st, st', d, Some(i), None);
    ImagesGrow(blobs, c, st, st', d, i);
    TouchedGrows(blobs, st, st', i);
  }

  lemma ManifestLayers(blobs: map<Digest, Blob>, digest: Digest, doc: Document)
    requires ReadBlob(blobs, digest) == Some(doc) && doc.layers.Some?
    ensures LayersOf(blobs, digest) == Digests(doc.layers.value)
  {
  }

  lemma LeavesGrow(blobs: map<Digest, Blob>, c: Contract, st: Walk, st': Walk, d: Descriptor, i: Option<Image>, a: Option<Attestation>)
    requires LeavesExplained(blobs, c, st)
    requires st'.leaves == st.leaves + [d] && st.images <= st'.images && st.attestations <= st'.attestations
    requires i.Some? ==> i.value in st'.images && ImageLeaf(blobs, c, d, i.value)
    requires a.Some? ==> a.value in st'.attestations && AttestationLeaf(blobs, c, d, a.value)
    requires i.Some? || a.Some?
    ensures LeavesExplained(blobs, c, st')
  {
    hide ImageLeaf, AttestationLeaf;
    forall leaf | leaf in st'.leaves
      ensures || (exists j :: j in st'.images && ImageLeaf(blobs, c, leaf, j))
              || (exists b :: b in st'.attestations && AttestationLeaf(blobs, c, leaf, b))
    {
      if leaf in st.leaves {
        if j :| j in st.images && ImageLeaf(blobs, c, leaf, j) {
          assert j in st'.images;
        } else {
          var b :| b in st.attestations && AttestationLeaf(blobs, c, leaf, b);
          assert b in st'.attestations;
        }
      }
    }
  }

  lemma ImagesGrow(blobs: map<Digest, Blob>, c: Contract, st: Walk, st': Walk, d: Descriptor, i: Image)
    requires ImagesExplained(blobs, c, st) && ImageLeaf(blobs, c, d, i)
    requires st'.leaves == st.leaves + [d] && st'.images == st.images + [i]
    requires st.names <= st'.names && st.layers <= st'.layers
    requires i.descriptor.digest in st'.names && i.config in st'.names && LayersOf(blobs, i.descriptor.digest) <= st'.layers
    ensures ImagesExplained(blobs, c, st')
  {
    hide ImageLeaf, LayersOf;
    forall j | j in st'.images
      ensures exists leaf :: leaf in st'.leaves && ImageLeaf(blobs, c, leaf, j)
    {
      if j in st.images {
        var leaf :| leaf in st.leaves && ImageLeaf(blobs, c, leaf, j);
        assert leaf in st'.leaves;
      } else {
        assert d in st'.leaves;
      }
    }
  }

  lemma TouchedGrows(blobs: map<Digest, Blob>, st: Walk, st': Walk, i: Image)
    requires TouchedExplained(blobs, st)
    requires st'.images == st.images + [i] && st'.attestations == st.attestations
    requires st'.layers == st.layers + LayersOf(blobs, i.descriptor.digest) && st'.subjects == st.subjects
    requires st'.names - st.names <= blobs.Keys && LayersOf(blobs, i.descriptor.digest) <= blobs.Keys
    ensures TouchedExplained(blobs, st')
  {
    hide LayersOf;
    forall x | x in st'.layers
      ensures exists j :: j in st'.images && x in LayersOf(blobs, j.descriptor.digest)
    {
      if x in st.layers {
        var j :| j in st.images && x in LayersOf(blobs, j.descriptor.digest);
        assert j in st'.images;
      } else {
        assert i in st'.images;
      }
    }
  }

  lemma NewImageLeaf(blobs: map<Digest, Blob>, c: Contract, st: Walk, d: Descriptor, doc: Document)
    requires NodeOk(blobs, d) && d.mediaType == Manifest
    requires ReadBlob(blobs, d.digest) == Some(doc) && !Attests(d, doc) && PlainImage(d, doc)
    requires AddImage(blobs, c, st, d, doc).Some?
    ensures ImageLeaf(blobs, c, d, Image(KeyOf(d), doc.config.value.digest))
  {
  }

  lemma AttestationPresent(blobs: map<Digest, Blob>, c: Contract, st: Walk, d: Descriptor, doc: Document)
    requires AddAttestation(blobs, c, st, d, doc).Some?
    ensures doc.config.Some? && doc.layers.Some?
    ensures forall x | x in Digests(doc.layers.value) :: x in blobs
    ensures doc.config.value.digest in blobs
    ensures AttestedSubject(blobs, c.mode.architecture, d, doc).value.digest in blobs
  {
  }

  lemma AttestationLeafGood(blobs: map<Digest, Blob>, c: Contract, st: Walk, d: Descriptor, doc: Document)
    requires Good(blobs, c, st) && NodeOk(blobs, d) && d.mediaType == Manifest && d.digest in st.names
    requires ReadBlob(blobs, d.digest) == Some(doc) && Attests(d, doc)
    requires AddAttestation(blobs, c, st, d, doc).Some? && d.digest !in Digests(st.leaves)
    ensures var st' := AddAttestation(blobs, c, st, d, doc).value.(leaves := st.leaves + [d]);
            Good(blobs, c, st') && Grows(st, st')
  {
    hide ImageLeaf, NodeOk, Attests, AttestedSubject, StatementsOk, LeavesExplained, LayersOf;
    var st' := AddAttestation(blobs, c, st, d, doc).value.(leaves := st.leaves + [d]);
    AttestationPresent(blobs, c, st, d, doc);
    var a := Attestation(d.digest, AttestedSubject(blobs, c.mode.architecture, d, doc).value, PredicateTypes(blobs, doc.layers.value));
    assert AttestationLeaf(blobs, c, d, a);
    assert a in st'.attestations;
    LeavesGrow(blobs, c, st, st', d, None, Some(a));
    assert forall l | l in st.leaves :: l in st'.leaves;
    assert forall b | b in st.attestations :: b in st'.attestations;
  }

  lemma EnterGood(blobs: map<Digest, Blob>, c: Contract, st: Walk, d: Descriptor)
    requires Good(blobs, c, st) && NodeOk(blobs, d)
    ensures Good(blobs, c, Enter(st, d)) && Grows(st, Enter(st, d))
  {
    hide ImageLeaf, AttestationLeaf, LayersOf;
  }

  lemma LeafGood(blobs: map<Digest, Blob>, c: Contract, st: Walk, d: Descriptor, doc: Document)
    requires Good(blobs, c, st) && NodeOk(blobs, d) && d.mediaType == Manifest && d.digest in st.names
    requires ReadBlob(blobs, d.digest) == Some(doc)
    requires AddLeaf(blobs, c, st, d, doc).Some?
    ensures Good(blobs, c, AddLeaf(blobs, c, st, d, doc).value) && Grows(st, AddLeaf(blobs, c, st, d, doc).value)
  {
    hide Good, Grows, NodeOk, Attests, PlainImage;
    if Attests(d, doc) {
      AttestationLeafGood(blobs, c, st, d, doc);
    } else {
      ImageLeafGood(blobs, c, st, d, doc);
    }
  }

  /** Every successful walk keeps its account, whatever graph it was given. */
  lemma {:induction false} NodeGood(blobs: map<Digest, Blob>, c: Contract, st: Walk, d: Descriptor, depth: nat)
    requires Good(blobs, c, st) && WalkNode(blobs, c, st, d, depth).Some?
    ensures Good(blobs, c, WalkNode(blobs, c, st, d, depth).value) && Grows(st, WalkNode(blobs, c, st, d, depth).value)
    decreases Level(depth), 0, 0
  {
    hide Good, Grows, NodeOk, AddLeaf;
    NodeReads(blobs, d);
    var doc := ReadBlob(blobs, d.digest).value;
    EnterGood(blobs, c, st, d);
    if d.mediaType == Index {
      IndexGood(blobs, c, Enter(st, d), doc, depth + 1);
    } else {
      LeafGood(blobs, c, Enter(st, d), d, doc);
    }
    GrowsTransitive(st, Enter(st, d), WalkNode(blobs, c, st, d, depth).value);
  }

  lemma NodeReads(blobs: map<Digest, Blob>, d: Descriptor)
    requires NodeOk(blobs, d)
    ensures d.mediaType in {Index, Manifest} && ReadBlob(blobs, d.digest).Some?
  {
  }

  lemma {:induction false} IndexGood(blobs: map<Digest, Blob>, c: Contract, st: Walk, doc: Document, depth: nat)
    requires Good(blobs, c, st) && WalkIndex(blobs, c, st, doc, depth).Some?
    ensures Good(blobs, c, WalkIndex(blobs, c, st, doc, depth).value) && Grows(st, WalkIndex(blobs, c, st, doc, depth).value)
    decreases Level(depth), 2, 0
  {
    hide Good, Grows, NodeOk, AddLeaf;
    AllGood(blobs, c, st, doc.manifests.value, depth);
  }

  lemma {:induction false} AllGood(blobs: map<Digest, Blob>, c: Contract, st: Walk, ds: seq<Descriptor>, depth: nat)
    requires Good(blobs, c, st) && WalkAll(blobs, c, st, ds, depth).Some?
    ensures Good(blobs, c, WalkAll(blobs, c, st, ds, depth).value) && Grows(st, WalkAll(blobs, c, st, ds, depth).value)
    decreases Level(depth), 1, |ds|
  {
    hide Good, NodeOk, AddLeaf;
    if ds != [] {
      var first := WalkNode(blobs, c, st, ds[0], depth).value;
      NodeGood(blobs, c, st, ds[0], depth);
      AllGood(blobs, c, first, ds[1..], depth);
      GrowsTransitive(st, first, WalkAll(blobs, c, st, ds, depth).value);
    }
  }
}
