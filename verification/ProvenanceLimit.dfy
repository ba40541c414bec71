/** Where detaching starts to fail: two inputs whose attestations have `n` statements each. Both
    validators accept them, yet from some number on the pair made from them is refused. */
module ProvenanceLimit {
  import opened Text
  import opened VersionPlan
  import opened OciGraph
  import opened OciMerge
  import opened Provenance

  /** The release and how many statements its attestations have. */
  datatype Release = Release(version: string, source: string, n: nat)

  const STATEMENTS := 100
  const SLSA := "https://slsa.dev/provenance/v1"

  function Zeros(n: nat): (s: string)
    ensures |s| == n && forall c | c in s :: c == '0'
  {
    if n == 0 then "" else "0" + Zeros(n - 1)
  }

  function Digit(n: nat): (c: char)
    ensures IsDigit(c) && c as int - '0' as int == n % 10
  {
    DIGITS[n % 10]
  }

  function FiveDigits(n: nat): (s: string) {
    [Digit(n / 10000), Digit(n / 1000), Digit(n / 100), Digit(n / 10), Digit(n)]
  }

  /** A digest that tells blobs of fewer than 100,000 bytes apart by their size. */
  function NameOf(n: nat): (s: Digest)
    ensures |s| == 71
  {
    "sha256:" + (Zeros(59) + FiveDigits(n))
  }

  lemma NameIsDigest(n: nat)
    ensures IsDigest(NameOf(n))
  {
    hide Zeros;
    var tail := Zeros(59) + FiveDigits(n);
    assert NameOf(n)[7..] == tail && NameOf(n)[..7] == "sha256:";
    forall c | c in tail ensures IsDigit(c) {
      if c !in Zeros(59) {
        assert c in FiveDigits(n);
      }
    }
  }

  lemma NamesDiffer(a: nat, b: nat)
    requires a < 100_000 && b < 100_000 && NameOf(a) == NameOf(b)
    ensures a == b
  {
    hide Zeros, Digit;
    assert FiveDigits(a) == NameOf(a)[66..] && FiveDigits(b) == NameOf(b)[66..];
    var s, t := FiveDigits(a), FiveDigits(b);
    assert s[0] == t[0] && s[1] == t[1] && s[2] == t[2] && s[3] == t[3] && s[4] == t[4];
    Five(a);
    Five(b);
  }

  lemma Five(n: nat)
    requires n < 100_000
    ensures n == n / 10000 % 10 * 10000 + n / 1000 % 10 * 1000 + n / 100 % 10 * 100 + n / 10 % 10 * 10 + n % 10
  {
    assert n / 100 == n / 10 / 10;
    assert n / 1000 == n / 100 / 10;
    assert n / 10000 == n / 1000 / 10;
  }

  function Sha(): (o: Oracle) {
    Oracle((b: Blob) => NameOf(b.size), (d: Document) => Blob(1, Some(d), map[]))
  }

  // ---------------------------------------------------------------- the inputs

  const NOTHING := Document(None, None, None, None, None, None, None, NO_PLATFORM, None, None, None, None, None, false)
  const UNKNOWN := Platform(Some("unknown"), Some("unknown"), None, false)

  function Arch(t: nat): (s: string) { if t == 0 then "amd64" else "arm64" }

  function Linux(t: nat): (p: Platform) { Platform(Some("linux"), Some(Arch(t)), None, false) }

  /** A descriptor of the blob of `s` bytes. */
  function Sized(s: nat, mediaType: MediaType, platform: Option<Platform>, annotations: map<string, string>): (d: Descriptor) {
    Descriptor(mediaType, NameOf(s), s, platform, annotations, None, false, None)
  }

  function ImageAt(t: nat): (d: Descriptor) { Sized(12 + t, Manifest, Some(Linux(t)), map[]) }

  function AttestationAt(t: nat): (d: Descriptor) {
    Sized(16 + t, Manifest, Some(UNKNOWN), map[REFERENCE_TYPE := "attestation-manifest", REFERENCE_DIGEST := NameOf(12 + t)])
  }

  function Layers(n: nat): (ds: seq<Descriptor>)
    ensures |ds| == n && forall i | 0 <= i < n :: ds[i] == Sized(STATEMENTS + i, InToto, None, map[])
  {
    seq(n, i requires 0 <= i < n => Sized(STATEMENTS + i, InToto, None, map[]))
  }

  function ConfigDocument(r: Release, t: nat): (d: Document) {
    NOTHING.(platform := Linux(t), version := Some(r.version), revision := Some(r.source), diffIds := Some([]))
  }

  function ImageDocument(t: nat): (d: Document) {
    NOTHING.(schemaVersion := Some(2), config := Some(Sized(10 + t, Config, None, map[])), layers := Some([]))
  }

  function AttestationDocument(n: nat): (d: Document) {
    NOTHING.(schemaVersion := Some(2), config := Some(Sized(14, Config, None, map[])), layers := Some(Layers(n)))
  }

  function StatementDocument(): (d: Document) {
    NOTHING.(statement := Some(Statement("https://in-toto.io/Statement/v1", SLSA, [NameOf(12)[7..], NameOf(13)[7..]])))
  }

  /** The blob of `s` bytes: configs at 10 and 11, images at 12 and 13, the attestations' config
      at 14, attestations at 16 and 17, statements from 100 on. */
  function Content(r: Release, s: nat): (b: Blob)
    ensures b.size == s
  {
    Blob(s,
      if s == 10 || s == 11 then Some(ConfigDocument(r, s - 10))
      else if s == 12 || s == 13 then Some(ImageDocument(s - 12))
      else if s == 14 then Some(NOTHING.(platform := UNKNOWN))
      else if s == 16 || s == 17 then Some(AttestationDocument(r.n))
      else if s >= STATEMENTS then Some(StatementDocument())
      else None,
      map[])
  }

  function Numbers(n: nat): (s: set<nat>)
    ensures |s| == n && forall k :: k in s <==> STATEMENTS <= k < STATEMENTS + n
  {
    if n == 0 then {} else Numbers(n - 1) + {STATEMENTS + n - 1}
  }

  function Sizes(t: nat, n: nat): (s: set<nat>) { {10 + t, 12 + t, 14, 16 + t} + Numbers(n) }

  function Named(s: set<nat>): (names: set<Digest>) { set k | k in s :: NameOf(k) }

  function Blobs(r: Release, s: set<nat>): (m: map<Digest, Blob>)
    requires forall k | k in s :: k < 100_000
    ensures m.Keys == Named(s)
    ensures forall k | k in s :: m[NameOf(k)] == Content(r, k)
  {
    NamesDistinct(s);
    map k | k in s :: NameOf(k) := Content(r, k)
  }

  lemma NamesDistinct(s: set<nat>)
    requires forall k | k in s :: k < 100_000
    ensures forall a, b | a in s && b in s && NameOf(a) == NameOf(b) :: a == b
  {
    hide NameOf;
    forall a, b | a in s && b in s && NameOf(a) == NameOf(b) ensures a == b {
      NamesDiffer(a, b);
    }
  }

  lemma {:induction false} NamedCount(s: set<nat>)
    requires forall k | k in s :: k < 100_000
    ensures |Named(s)| == |s|
  {
    hide NameOf;
    if s != {} {
      var k :| k in s;
      NamedCount(s - {k});
      if NameOf(k) in Named(s - {k}) {
        var j :| j in s - {k} && NameOf(j) == NameOf(k);
        NamesDiffer(j, k);
      }
      assert Named(s) == Named(s - {k}) + {NameOf(k)};
    }
  }

  function Input(r: Release, t: nat): (f: Files)
    requires t <= 1 && r.n <= MAX_LAYERS
  {
    Files(Some(Blob(1, Some(LAYOUT), map[])), Some(Blob(1, Some(IndexDocument([ImageAt(t), AttestationAt(t)])), map[])),
          Blobs(r, Sizes(t, r.n)), map[])
  }

  function ContractOf(r: Release, t: nat): (c: Contract) { Contract(r.version, r.source, Native(Arch(t))) }

  // ---------------------------------------------------------------- both are accepted

  /** The blob of `k` bytes is there, and a descriptor of it resolves. */
  predicate Has(m: map<Digest, Blob>, k: nat, document: Document) {
    NameOf(k) in m && m[NameOf(k)].size == k > 0 && m[NameOf(k)].document == Some(document)
  }

  lemma HasResolves(m: map<Digest, Blob>, k: nat, document: Document, mediaType: MediaType, platform: Option<Platform>, annotations: map<string, string>)
    requires Has(m, k, document)
    ensures Resolves(m, Sized(k, mediaType, platform, annotations), {mediaType})
    ensures ReadBlob(m, NameOf(k)) == Some(document)
  {
    NameIsDigest(k);
    hide NameOf, IsDigest;
  }

  lemma ImageAdds(m: map<Digest, Blob>, r: Release, t: nat, st: Walk)
    requires t <= 1 && Has(m, 10 + t, ConfigDocument(r, t))
    ensures AddImage(m, ContractOf(r, t), st, ImageAt(t), ImageDocument(t))
      == Some(st.(images := st.images + [Image(KeyOf(ImageAt(t)), NameOf(10 + t))], names := st.names + {NameOf(10 + t)}))
  {
    hide NameOf, Has, KeyOf;
    HasResolves(m, 10 + t, ConfigDocument(r, t), Config, None, map[]);
    assert RuntimeConfig(ContractOf(r, t), Arch(t), ImageAt(t), ConfigDocument(r, t));
    hide Resolves, ReadBlob, RuntimeConfig;
    assert ImageOk(m, ContractOf(r, t), Arch(t), ImageAt(t), ImageDocument(t));
    assert st.layers + Digests([]) == st.layers;
  }

  lemma StatementHolds(m: map<Digest, Blob>, t: nat, k: nat)
    requires t <= 1 && Has(m, k, StatementDocument())
    ensures StatementOk(m, Sized(k, InToto, None, map[]), NameOf(12 + t)) && ReadBlob(m, NameOf(k)) == Some(StatementDocument())
  {
    hide NameOf, Has;
    HasResolves(m, k, StatementDocument(), InToto, None, map[]);
    hide Resolves, ReadBlob;
    var v := StatementDocument().statement.value;
    assert NameOf(12 + t)[7..] == v.subjects[t];
  }

  lemma LayerDigests(n: nat)
    ensures Digests(Layers(n)) == Named(Numbers(n))
  {
    hide NameOf;
    forall k | k in Numbers(n) ensures NameOf(k) in Digests(Layers(n)) {
      assert Layers(n)[k - STATEMENTS].digest == NameOf(k);
    }
  }

  lemma Annotated(t: nat)
    ensures Annotation(AttestationAt(t), REFERENCE_TYPE) == Some("attestation-manifest")
    ensures Annotation(AttestationAt(t), REFERENCE_DIGEST) == Some(NameOf(12 + t))
  {
    hide NameOf;
    assert REFERENCE_TYPE[21] != REFERENCE_DIGEST[21];
  }

  lemma SubjectFound(m: map<Digest, Blob>, t: nat, n: nat)
    requires t <= 1 && Has(m, 14, NOTHING.(platform := UNKNOWN)) && Has(m, 12 + t, ImageDocument(t))
    ensures AttestedSubject(m, Arch(t), AttestationAt(t), AttestationDocument(n)) == Some(KeyOf(ImageAt(t)))
  {
    hide NameOf, Layers, IsDigest;
    HasResolves(m, 14, NOTHING.(platform := UNKNOWN), Config, None, map[]);
    Annotated(t);
    NameIsDigest(12 + t);
    hide Resolves, ReadBlob, Annotation;
    var d, doc := AttestationAt(t), AttestationDocument(n);
    assert d.platform == Some(UNKNOWN) && doc.artifactType.None? && doc.subject.None? && d.artifactType.None?;
    assert doc.config == Some(Sized(14, Config, None, map[]));
  }

  lemma AttestationAdds(m: map<Digest, Blob>, r: Release, t: nat, st: Walk)
    requires t <= 1 && 0 < r.n <= MAX_LAYERS
    requires Has(m, 14, NOTHING.(platform := UNKNOWN)) && Has(m, 12 + t, ImageDocument(t))
    requires forall k | k in Numbers(r.n) :: Has(m, k, StatementDocument())
    ensures var added := AddAttestation(m, ContractOf(r, t), st, AttestationAt(t), AttestationDocument(r.n));
      && added.Some?
      && added.value.attestations == st.attestations + [Attestation(NameOf(16 + t), KeyOf(ImageAt(t)), {SLSA})]
      && added.value.names == st.names + {NameOf(14)} + Named(Numbers(r.n))
      && added.value.leaves == st.leaves && added.value.images == st.images
  {
    hide NameOf, IsDigest, AttestedSubject, StatementOk, ReadBlob, Has, Digests, Named;
    SubjectFound(m, t, r.n);
    NameIsDigest(12 + t);
    LayerDigests(r.n);
    forall i | 0 <= i < r.n
      ensures StatementOk(m, Layers(r.n)[i], NameOf(12 + t)) && ReadBlob(m, Layers(r.n)[i].digest) == Some(StatementDocument())
    {
      StatementHolds(m, t, STATEMENTS + i);
    }
    SameType(m, Layers(r.n));
    hide PredicateTypes;
  }

  lemma SameType(m: map<Digest, Blob>, layers: seq<Descriptor>)
    requires |layers| > 0 && forall i | 0 <= i < |layers| :: ReadBlob(m, layers[i].digest) == Some(StatementDocument())
    ensures PredicateTypes(m, layers) == {SLSA}
  {
    hide ReadBlob, NameOf;
    assert ReadBlob(m, layers[0].digest) == Some(StatementDocument());
  }

  // ---------------------------------------------------------------- both are accepted

  lemma ImageWalks(m: map<Digest, Blob>, r: Release, t: nat)
    requires t <= 1 && Has(m, 10 + t, ConfigDocument(r, t)) && Has(m, 12 + t, ImageDocument(t))
    ensures WalkNode(m, ContractOf(r, t), EMPTY_WALK, ImageAt(t), 0) == Some(ImageWalk(t))
  {
    hide NameOf, Has, KeyOf, AddImage;
    HasResolves(m, 12 + t, ImageDocument(t), Manifest, Some(Linux(t)), map[]);
    ImageAdds(m, r, t, Enter(EMPTY_WALK, ImageAt(t)));
    hide Resolves;
    assert Resolves(m, ImageAt(t), {Index, Manifest}) by { MoreTypes(m, ImageAt(t)); }
    hide ReadBlob;
    assert NodeOk(m, ImageAt(t));
    var e := Enter(EMPTY_WALK, ImageAt(t));
    assert e.names + {NameOf(10 + t)} == ImageWalk(t).names && e.images == [] && e.leaves == [];
    assert Digests(e.leaves) == {} && e.leaves + [ImageAt(t)] == [ImageAt(t)];
    assert e.images + ImageWalk(t).images == ImageWalk(t).images;
    assert PlainImage(ImageAt(t), ImageDocument(t)) && !Attests(ImageAt(t), ImageDocument(t));
    assert AddLeaf(m, ContractOf(r, t), e, ImageAt(t), ImageDocument(t)) == Some(ImageWalk(t));
  }

  lemma MoreTypes(m: map<Digest, Blob>, d: Descriptor)
    requires Resolves(m, d, {Manifest})
    ensures Resolves(m, d, {Index, Manifest})
  {
    hide IsDigest;
  }

  function ImageWalk(t: nat): (st: Walk) {
    EMPTY_WALK.(visited := 1, leaves := [ImageAt(t)], images := [Image(KeyOf(ImageAt(t)), NameOf(10 + t))],
                names := {NameOf(12 + t), NameOf(10 + t)})
  }

  lemma AttestationWalks(m: map<Digest, Blob>, r: Release, t: nat)
    requires t <= 1 && 0 < r.n <= MAX_LAYERS
    requires Has(m, 14, NOTHING.(platform := UNKNOWN)) && Has(m, 12 + t, ImageDocument(t)) && Has(m, 16 + t, AttestationDocument(r.n))
    requires forall k | k in Numbers(r.n) :: Has(m, k, StatementDocument())
    ensures var w := WalkNode(m, ContractOf(r, t), ImageWalk(t), AttestationAt(t), 0);
      && w.Some?
      && w.value.leaves == [ImageAt(t), AttestationAt(t)]
      && w.value.images == ImageWalk(t).images
      && w.value.attestations == [Attestation(NameOf(16 + t), KeyOf(ImageAt(t)), {SLSA})]
      && w.value.names == ImageWalk(t).names + {NameOf(16 + t)} + {NameOf(14)} + Named(Numbers(r.n))
  {
    hide NameOf, Has, KeyOf, AddAttestation, Named, Layers;
    var d, doc := AttestationAt(t), AttestationDocument(r.n);
    HasResolves(m, 16 + t, doc, Manifest, Some(UNKNOWN), d.annotations);
    AttestationAdds(m, r, t, Enter(ImageWalk(t), d));
    Annotated(t);
    hide Resolves, Annotation;
    assert Resolves(m, d, {Index, Manifest}) by { MoreTypes(m, d); }
    hide ReadBlob;
    assert NodeOk(m, d);
    assert Attests(d, doc);
    if NameOf(16 + t) == NameOf(12 + t) {
      NamesDiffer(16 + t, 12 + t);
    }
    assert d.digest !in Digests([ImageAt(t)]);
    assert AddLeaf(m, ContractOf(r, t), Enter(ImageWalk(t), d), d, doc).Some?;
  }

  lemma InputHas(r: Release, t: nat, k: nat)
    requires t <= 1 && r.n <= MAX_LAYERS && k in Sizes(t, r.n)
    ensures Content(r, k).document.Some?
    ensures Has(Input(r, t).blobs, k, Content(r, k).document.value)
  {
    hide NameOf, Sizes, ConfigDocument, ImageDocument, AttestationDocument, StatementDocument;
    NamedHolds(Sizes(t, r.n), k);
    SizesBelong(t, r.n, k);
    hide Named;
  }

  lemma NamedHolds(s: set<nat>, k: nat)
    requires k in s
    ensures NameOf(k) in Named(s)
  {
    hide NameOf;
  }

  lemma SizesBelong(t: nat, n: nat, k: nat)
    requires t <= 1 && k in Sizes(t, n)
    ensures 10 <= k <= 14 || 16 <= k <= 17 || k >= STATEMENTS
  {
  }

  lemma InputWalks(r: Release, t: nat) returns (st: Walk)
    requires t <= 1 && 0 < r.n <= MAX_LAYERS
    ensures WalkFiles(Input(r, t), ContractOf(r, t)) == Some(st)
    ensures st.leaves == [ImageAt(t), AttestationAt(t)] && st.images == [Image(KeyOf(ImageAt(t)), NameOf(10 + t))]
    ensures st.attestations == [Attestation(NameOf(16 + t), KeyOf(ImageAt(t)), {SLSA})]
    ensures st.names == Named(Sizes(t, r.n))
  {
    hide NameOf, Has, KeyOf, Blobs, Layers, WalkNode, Content, Sizes, ImageAt, AttestationAt, Named, ContractOf, NOTHING, ConfigDocument;
    var m := Input(r, t).blobs;
    InputDocuments(r, t);
    ImageWalks(m, r, t);
    AttestationWalks(m, r, t);
    st := WalkNode(m, ContractOf(r, t), ImageWalk(t), AttestationAt(t), 0).value;
    NamesOfInput(t, r.n);
    TwoNodes(m, ContractOf(r, t), ImageAt(t), AttestationAt(t), ImageWalk(t), st);
  }

  lemma TwoNodes(m: map<Digest, Blob>, c: Contract, a: Descriptor, b: Descriptor, x: Walk, y: Walk)
    requires WalkNode(m, c, EMPTY_WALK, a, 0) == Some(x) && WalkNode(m, c, x, b, 0) == Some(y)
    ensures WalkAll(m, c, EMPTY_WALK, [a, b], 0) == Some(y)
  {
    hide WalkNode;
    assert [a, b][1..] == [b] && [b][1..] == [];
    assert WalkAll(m, c, y, [], 0) == Some(y);
    assert WalkAll(m, c, x, [b], 0) == Some(y);
  }

  lemma NamesOfInput(t: nat, n: nat)
    ensures ImageWalk(t).names + {NameOf(16 + t)} + {NameOf(14)} + Named(Numbers(n)) == Named(Sizes(t, n))
  {
    NamedUnion({10 + t, 12 + t, 14, 16 + t}, Numbers(n));
    NamedFour(10 + t, 12 + t, 14, 16 + t);
    SameFour(NameOf(10 + t), NameOf(12 + t), NameOf(14), NameOf(16 + t), Named(Numbers(n)));
    hide NameOf, Named, Numbers;
  }

  lemma SameFour(a: Digest, b: Digest, c: Digest, d: Digest, rest: set<Digest>)
    ensures {b, a} + {d} + {c} + rest == {a, b, c, d} + rest
  {
  }

  lemma NamedUnion(s: set<nat>, t: set<nat>)
    ensures Named(s + t) == Named(s) + Named(t)
  {
    hide NameOf;
  }

  lemma NamedFour(a: nat, b: nat, c: nat, d: nat)
    ensures Named({a, b, c, d}) == {NameOf(a), NameOf(b), NameOf(c), NameOf(d)}
  {
    hide NameOf;
    var s: set<nat> := {a, b, c, d};
    assert a in s && b in s && c in s && d in s;
  }

  lemma InputDocuments(r: Release, t: nat)
    requires t <= 1 && r.n <= MAX_LAYERS
    ensures var m := Input(r, t).blobs;
      && Has(m, 10 + t, ConfigDocument(r, t)) && Has(m, 12 + t, ImageDocument(t)) && Has(m, 14, NOTHING.(platform := UNKNOWN))
      && Has(m, 16 + t, AttestationDocument(r.n)) && forall k | k in Numbers(r.n) :: Has(m, k, StatementDocument())
  {
    hide NameOf, Has, Blobs, Content, Sizes, Input;
    InSizes(t, r.n);
    ContentIs(r, t);
    InputHas(r, t, 10 + t);
    InputHas(r, t, 12 + t);
    InputHas(r, t, 14);
    InputHas(r, t, 16 + t);
    forall k | k in Numbers(r.n) ensures Has(Input(r, t).blobs, k, StatementDocument()) {
      InputHas(r, t, k);
    }
  }

  lemma InSizes(t: nat, n: nat)
    ensures 10 + t in Sizes(t, n) && 12 + t in Sizes(t, n) && 14 in Sizes(t, n) && 16 + t in Sizes(t, n)
    ensures forall k | k in Numbers(n) :: k in Sizes(t, n)
  {
    hide Numbers;
  }

  lemma ContentIs(r: Release, t: nat)
    requires t <= 1
    ensures Content(r, 10 + t).document == Some(ConfigDocument(r, t)) && Content(r, 12 + t).document == Some(ImageDocument(t))
    ensures Content(r, 14).document == Some(NOTHING.(platform := UNKNOWN)) && Content(r, 16 + t).document == Some(AttestationDocument(r.n))
    ensures forall k | k in Numbers(r.n) :: Content(r, k).document == Some(StatementDocument())
  {
    hide ConfigDocument, ImageDocument, AttestationDocument, StatementDocument;
  }

  lemma InputInventoried(r: Release, t: nat)
    requires t <= 1 && r.n <= MAX_LAYERS
    ensures Inventoried(Sha(), Input(r, t).blobs)
    ensures forall d | d in Input(r, t).blobs :: exists k :: k in Sizes(t, r.n) && Input(r, t).blobs[d] == Content(r, k)
  {
    hide NameOf, IsDigest, Content, Sizes;
    var m := Input(r, t).blobs;
    forall d | d in m
      ensures IsDigest(d) && Sha().hash(m[d]) == d && exists k :: k in Sizes(t, r.n) && m[d] == Content(r, k)
    {
      var k :| k in Sizes(t, r.n) && NameOf(k) == d;
      NameIsDigest(k);
    }
  }

  /** Each input is accepted, with provenance, and its walk reads all its blobs. */
  lemma InputAccepted(r: Release, t: nat)
    requires t <= 1 && 0 < r.n <= MAX_LAYERS
    ensures var x := Accept(Sha(), Input(r, t), ContractOf(r, t));
      && x.Some? && HasProvenance(x.value.attestations) && x.value.names == Named(Sizes(t, r.n))
      && ImageLeafOf(x.value) == Some(ImageAt(t))
  {
    hide NameOf, Sizes, Inventoried, Named, WalkFiles, Input;
    InputInventoried(r, t);
    var st := InputWalks(r, t);
    assert st.attestations[0].predicateTypes == {SLSA} && SLSA in PROVENANCE_TYPES;
    assert SLSA in st.attestations[0].predicateTypes * PROVENANCE_TYPES;
    assert HasProvenance(st.attestations);
  }

  // ---------------------------------------------------------------- and yet not always detached

  function Both(n: nat): (s: set<nat>) { Sizes(0, n) + Sizes(1, n) }

  /** All blobs of the two inputs, and the index of their images. */
  function AtHand(r: Release): (u: set<Blob>) {
    (set k | k in Both(r.n) :: Content(r, k)) + {Sha().canonical(IndexDocument([ImageAt(0), ImageAt(1)]))}
  }

  lemma HandIsLawful(r: Release)
    requires r.n <= MAX_LAYERS
    ensures Lawful(Sha(), AtHand(r))
  {
    hide NameOf, IsDigest, Content;
    forall a ensures IsDigest(Sha().hash(a)) {
      NameIsDigest(a.size);
    }
    var u := AtHand(r);
    forall a, b | a in u && b in u && Sha().hash(a) == Sha().hash(b) ensures a == b {
      BySize(r, a);
      BySize(r, b);
      NamesDiffer(a.size, b.size);
    }
  }

  /** Blobs at hand are known by their size. */
  lemma BySize(r: Release, a: Blob)
    requires r.n <= MAX_LAYERS && a in AtHand(r)
    ensures a.size < 100_000
    ensures a == if a.size == 1 then Sha().canonical(IndexDocument([ImageAt(0), ImageAt(1)])) else Content(r, a.size)
  {
    hide NameOf, Content, Both, IndexDocument, ImageAt;
    BothBounds(r.n);
    if a != Sha().canonical(IndexDocument([ImageAt(0), ImageAt(1)])) {
      var k :| k in Both(r.n) && a == Content(r, k);
    }
  }

  lemma BothBounds(n: nat)
    requires n <= MAX_LAYERS
    ensures forall k | k in Both(n) :: 10 <= k < 100_000
  {
  }

  lemma InputKnown(r: Release, t: nat)
    requires t <= 1 && r.n <= MAX_LAYERS
    ensures Known(Sha(), AtHand(r), Input(r, t).blobs)
  {
    hide NameOf, Content, Sizes, Input, Inventoried;
    InputInventoried(r, t);
    var m := Input(r, t).blobs;
    forall d | d in m ensures m[d] in AtHand(r) {
      var k :| k in Sizes(t, r.n) && m[d] == Content(r, k);
      assert k in Both(r.n);
    }
  }

  lemma BothNamed(n: nat)
    ensures Named(Sizes(0, n)) + Named(Sizes(1, n)) == Named(Both(n))
  {
    NamedUnion(Sizes(0, n), Sizes(1, n));
    hide Named, Sizes;
  }

  lemma BothCount(n: nat)
    requires n <= MAX_LAYERS
    ensures |Named(Both(n))| == n + 7
  {
    hide Named, Both, Numbers;
    BothIs(n);
    BothBounds(n);
    NamedCount(Both(n));
    DisjointCount({10, 11, 12, 13, 14, 16, 17}, Numbers(n));
    Seven();
  }

  lemma Seven()
    ensures var few: set<nat> := {10, 11, 12, 13, 14, 16, 17}; |few| == 7
  {
  }

  lemma DisjointCount(s: set<nat>, t: set<nat>)
    requires s !! t
    ensures |s + t| == |s| + |t|
  {
  }

  lemma BothIs(n: nat)
    ensures var few: set<nat> := {10, 11, 12, 13, 14, 16, 17};
      Both(n) == few + Numbers(n) && few !! Numbers(n)
  {
    hide Numbers;
    assert Sizes(0, n) == {10, 12, 14, 16} + Numbers(n);
    assert Sizes(1, n) == {11, 13, 14, 17} + Numbers(n);
  }

  /** For any release and up to the most statements the validators allow, both inputs are accepted
      with provenance and their walks read `n + 7` blobs; the pair is made up to 4089 statements,
      and refused from 4090 on. */
  lemma DetachLimit(r: Release, plan: string)
    requires 0 < r.n <= MAX_LAYERS
    ensures var x := Accept(Sha(), Input(r, 0), ContractOf(r, 0));
      var y := Accept(Sha(), Input(r, 1), ContractOf(r, 1));
      && x.Some? && HasProvenance(x.value.attestations) && y.Some? && HasProvenance(y.value.attestations)
      && |x.value.names + y.value.names| == r.n + 7
    ensures Detach(Sha(), Input(r, 0), Input(r, 1), r.version, r.source, plan).Some? <==> r.n + 7 <= MAX_SIDECAR_BLOBS
  {
    hide Accept, Input, Detach, HasProvenance, Lawful, Known, Named, Sizes, AtHand, ImageLeafOf, Inventoried;
    InputAccepted(r, 0);
    InputAccepted(r, 1);
    BothNamed(r.n);
    BothCount(r.n);
    HandIsLawful(r);
    InputKnown(r, 0);
    InputKnown(r, 1);
    IndexIsAtHand(r);
    DetachSucceedsExactly(Sha(), AtHand(r), Input(r, 0), Input(r, 1), r.version, r.source, plan);
  }

  lemma IndexIsAtHand(r: Release)
    requires 0 < r.n <= MAX_LAYERS
    ensures IndexAtHand(Sha(), AtHand(r), Input(r, 0), Input(r, 1), r.version, r.source)
  {
    hide Accept, Input, NameOf, Content, Sizes, ImageLeafOf;
    InputAccepted(r, 0);
    InputAccepted(r, 1);
  }
}
