/** The archive validator as the object it is: a walk that fills fields as it goes. */
module OciArchive {
  import opened Text
  import opened OciGraph

  class Archive {
    const files: Files
    const contract: Contract
    var visited: nat
    var leaves: seq<Descriptor>
    var images: seq<Image>
    var attestations: seq<Attestation>
    var names: set<Digest>
    var statements: set<Digest>
    var layers: set<Digest>
    var descriptors: map<string, Descriptor>
    ghost var subjects: set<Digest>

    ghost function State(): (st: Walk)
      reads this
    {
      Walk(visited, leaves, images, attestations, names, statements, layers, subjects, descriptors)
    }

    constructor (files: Files, contract: Contract)
      ensures this.files == files && this.contract == contract && State() == EMPTY_WALK
    {
      this.files, this.contract := files, contract;
      visited, leaves, images, attestations := 0, [], [], [];
      names, statements, layers, descriptors := {}, {}, {}, map[];
      subjects := {};
    }

    method Image(d: Descriptor, doc: Document) returns (ok: bool)
      modifies this
      ensures ok == AddImage(files.blobs, contract, old(State()), d, doc).Some?
      ensures ok ==> State() == AddImage(files.blobs, contract, old(State()), d, doc).value
      ensures !ok ==> State() == old(State())
    {
      hide RuntimeConfig, IsDigest, Resolves, ReadBlob, LayerDigest, Digests, KeyOf;
      var architecture: string;
      match contract.mode {
        case Native(expected) => architecture := expected;
        case Runtime =>
          if d.platform.None? || d.platform.value.os != Some("linux") || d.platform.value.architecture.None?
             || d.platform.value.architecture.value !in PLATFORMS
             || d.platform.value.architecture.value in descriptors {
            return false;
          }
          architecture := d.platform.value.architecture.value;
      }
      if doc.config.None? || !Resolves(files.blobs, doc.config.value, {Config}) {
        return false;
      }
      var details := ReadBlob(files.blobs, doc.config.value.digest);
      if details.None? || !RuntimeConfig(contract, architecture, d, details.value) {
        return false;
      }
      if doc.layers.None? || |doc.layers.value| > MAX_LAYERS {
        return false;
      }
      var ls := doc.layers.value;
      for i := 0 to |ls|
        invariant State() == old(State())
        invariant forall k | 0 <= k < i :: Resolves(files.blobs, ls[k], LAYER_TYPES)
      {
        if !Resolves(files.blobs, ls[i], LAYER_TYPES) {
          return false;
        }
      }
      if details.value.diffIds.None? || |details.value.diffIds.value| != |ls| {
        return false;
      }
      var ids := details.value.diffIds.value;
      for i := 0 to |ls|
        invariant State() == old(State())
        invariant forall k | 0 <= k < i :: IsDigest(ids[k]) && LayerDigest(files.blobs, ls[k]) == Some(ids[k])
      {
        if !IsDigest(ids[i]) || LayerDigest(files.blobs, ls[i]) != Some(ids[i]) {
          return false;
        }
      }
      names := names + {doc.config.value.digest};
      images := images + [OciGraph.Image(KeyOf(d), doc.config.value.digest)];
      layers := layers + Digests(ls);
      if contract.mode.Runtime? {
        descriptors := descriptors[architecture := d];
      }
      return true;
    }

    /** Every layer of an attestation must be a statement about its subject. */
    method Statements(ls: seq<Descriptor>, subject: Digest) returns (types: Option<set<string>>)
      requires |subject| >= 7
      ensures types == if forall k | 0 <= k < |ls| :: StatementOk(files.blobs, ls[k], subject)
                       then Some(PredicateTypes(files.blobs, ls)) else None
    {
      var seen: set<string> := {};
      for i := 0 to |ls|
        invariant forall k | 0 <= k < i :: StatementOk(files.blobs, ls[k], subject)
        invariant seen == PredicateTypes(files.blobs, ls[..i])
      {
        if !StatementOk(files.blobs, ls[i], subject) {
          return None;
        }
        TypesStep(files.blobs, ls, i);
        seen := seen + {ReadBlob(files.blobs, ls[i].digest).value.statement.value.predicateType};
      }
      assert ls[..|ls|] == ls;
      return Some(seen);
    }

    method Attestation(d: Descriptor, doc: Document) returns (ok: bool)
      modifies this
      ensures ok == AddAttestation(files.blobs, contract, old(State()), d, doc).Some?
      ensures ok ==> State() == AddAttestation(files.blobs, contract, old(State()), d, doc).value
      ensures !ok ==> State() == old(State())
    {
      hide StatementOk, PredicateTypes, IsDigest;
      if contract.mode.Runtime? {
        return false;
      }
      var subject := AttestedSubject(files.blobs, contract.mode.architecture, d, doc);
      if subject.None? || !IsDigest(subject.value.digest) || doc.layers.None?
         || !(0 < |doc.layers.value| <= MAX_LAYERS) {
        return false;
      }
      var ls := doc.layers.value;
      DigestLength(subject.value.digest);
      var types := Statements(ls, subject.value.digest);
      if types.None? {
        return false;
      }
      names := names + {doc.config.value.digest} + Digests(ls);
      statements := statements + Digests(ls);
      attestations := attestations + [OciGraph.Attestation(d.digest, subject.value, types.value)];
      subjects := subjects + {subject.value.digest};
      return true;
    }

    static lemma DigestLength(s: string)
      requires IsDigest(s)
      ensures |s| >= 7
    {
    }

    static lemma TypesStep(blobs: map<Digest, Blob>, ls: seq<Descriptor>, i: nat)
      requires i < |ls| && ReadBlob(blobs, ls[i].digest).Some? && ReadBlob(blobs, ls[i].digest).value.statement.Some?
      ensures PredicateTypes(blobs, ls[..i + 1]) ==
              PredicateTypes(blobs, ls[..i]) + {ReadBlob(blobs, ls[i].digest).value.statement.value.predicateType}
    {
      var a, b := ls[..i], ls[..i + 1];
      assert b[i] == ls[i];
      assert forall k | 0 <= k < i :: a[k] == b[k];
    }

    method WalkNode(d: Descriptor, depth: nat) returns (ok: bool)
      modifies this
      ensures ok == OciGraph.WalkNode(files.blobs, contract, old(State()), d, depth).Some?
      ensures ok ==> State() == OciGraph.WalkNode(files.blobs, contract, old(State()), d, depth).value
      decreases Level(depth), 0
    {
      hide ImageOk, AttestedSubject, StatementsOk, NodeOk, AddImage, AddAttestation;
      visited := visited + 1;
      if depth > MAX_DEPTH || visited > MAX_NODES || !NodeOk(files.blobs, d) {
        return false;
      }
      NodeReads(files.blobs, d);
      names := names + {d.digest};
      var doc := ReadBlob(files.blobs, d.digest).value;
      assert State() == Enter(old(State()), d);
      if d.mediaType == Index {
        ok := WalkIndex(doc, depth + 1);
        return;
      }
      if Attests(d, doc) {
        ok := Attestation(d, doc);
      } else if PlainImage(d, doc) {
        ok := Image(d, doc);
      } else {
        return false;
      }
      if !ok || d.digest in Digests(leaves) {
        return false;
      }
      leaves := leaves + [d];
    }

    method WalkIndex(doc: Document, depth: nat) returns (ok: bool)
      modifies this
      ensures ok == OciGraph.WalkIndex(files.blobs, contract, old(State()), doc, depth).Some?
      ensures ok ==> State() == OciGraph.WalkIndex(files.blobs, contract, old(State()), doc, depth).value
      decreases Level(depth), 1
    {
      hide OciGraph.WalkNode;
      if !IndexSchema(doc) {
        return false;
      }
      var children := doc.manifests.value;
      for i := 0 to |children|
        invariant WalkAll(files.blobs, contract, old(State()), children, depth)
               == WalkAll(files.blobs, contract, State(), children[i..], depth)
      {
        assert children[i..][0] == children[i] && children[i..][1..] == children[i + 1..];
        ok := WalkNode(children[i], depth);
        if !ok {
          return false;
        }
      }
      return true;
    }

    /** The whole native or runtime walk, from the layout file on. */
    method Open() returns (ok: bool)
      requires State() == EMPTY_WALK
      modifies this
      ensures ok == WalkFiles(files, contract).Some?
      ensures ok ==> State() == WalkFiles(files, contract).value
    {
      var root := RootIndex(files);
      if root.None? {
        return false;
      }
      ok := WalkIndex(root.value, 0);
    }

    /** `validate_complete_graph` of a native input. */
    method ValidateCompleteGraph() returns (ok: bool)
      ensures ok == OneImage(State())
    {
      if |images| != 1 {
        return false;
      }
      for i := 0 to |attestations|
        invariant forall k | 0 <= k < i :: attestations[k].subject == images[0].descriptor
      {
        if attestations[i].subject != images[0].descriptor {
          return false;
        }
      }
      return true;
    }
  }
}
