/** The integrity checker: it reports exactly the violations there are. */
module BundleVerify {
  import opened Anchors
  import opened BundleModel

  datatype Violation =
    | ManifestUnreadable
    | AnchorNotNormalized
    | IdentityHashMismatch
    | IdMismatch
    | RecordUnreadable
    | RecordId
    | RecordKind
    | RecordSubtype
    | RecordScope
    | RecordAnchor
    | RecordOrdinal
    | RecordOrigin
    | RecordEvidence
    | RecordEmbedding
    | ProvenanceUnreadable
    | ProvenanceOrigin
    | BundleIncomplete
    | PartMissing(relPath: string)
    | PartHashMismatch(relPath: string)
    | MutableStateMismatch
    | ArtifactsUnreadable
    | ArtifactDangling(relPath: string)
    | ArtifactHashMismatch(relPath: string)
    | ArtifactLengthMismatch(relPath: string)

  predicate IdentityViolated(c: Codec, m: Manifest, v: Violation) {
    match v
    case AnchorNotNormalized => Normalize(m.identityCore.primaryAnchor) != m.identityCore.primaryAnchor
    case IdentityHashMismatch => IdentityHash(c, m.identityCore) != m.identityHash
    case IdMismatch => MintId(c, m.identityCore) != m.id
    case _ => false
  }

  predicate CoreViolated(m: Manifest, f: Frontmatter, v: Violation) {
    match v
    case RecordId => f.id != m.id
    case RecordKind => f.kind != m.identityCore.kind
    case RecordSubtype => f.subtype != m.identityCore.subtype
    case RecordScope => f.scope != m.identityCore.scope
    case RecordAnchor => f.anchors == [] || f.anchors[0].normalized != m.identityCore.primaryAnchor
    case _ => false
  }

  predicate EchoViolated(m: Manifest, f: Frontmatter, embeddingInput: string, v: Violation) {
    match v
    case RecordOrdinal => f.createdAtOrdinal != m.createdAtOrdinal
    case RecordOrigin => f.originClass != m.originClass
    case RecordEvidence => f.evidenceIncomplete != m.evidenceIncomplete
    case RecordEmbedding => embeddingInput != m.embeddingInput
    case _ => false
  }

  predicate RecordViolated(c: Codec, files: Files, m: Manifest, v: Violation) {
    match ReadRecord(c, files)
    case None => v.RecordUnreadable?
    case Some((f, prose)) =>
      CoreViolated(m, f, v) || EchoViolated(m, f, EmbeddingInput(c, prose, f.anchors), v)
  }

  predicate ProvenanceViolated(c: Codec, files: Files, m: Manifest, v: Violation) {
    match ReadProvenance(c, files)
    case None => v.ProvenanceUnreadable?
    case Some(p) => v.ProvenanceOrigin? && p.originClass != m.originClass
  }

  predicate PartViolated(c: Codec, files: Files, m: Manifest, v: Violation) {
    match v
    case BundleIncomplete => !m.complete
    case MutableStateMismatch => MutableHash(c, ActualDigests(c, files, m)) != m.mutableStateHash
    case _ => DigestViolated(c, files, m, m.contentHashes.Keys, v)
  }

  /** A listed part among `paths` that is missing or holds other contents. */
  predicate DigestViolated(c: Codec, files: Files, m: Manifest, paths: set<string>, v: Violation) {
    match v
    case PartMissing(p) => p in paths && p in m.contentHashes && p !in files
    case PartHashMismatch(p) => p in paths && p in m.contentHashes && p in files && c.sha(files[p]) != m.contentHashes[p]
    case _ => false
  }

  predicate EntryViolated(c: Codec, files: Files, a: ArtifactEntry, v: Violation) {
    match v
    case ArtifactDangling(p) => p == a.relPath && p !in files
    case ArtifactHashMismatch(p) => p == a.relPath && p in files && c.sha(files[p]) != a.sha
    case ArtifactLengthMismatch(p) => p == a.relPath && p in files && |files[p]| != a.bytes
    case _ => false
  }

  predicate ArtifactViolated(c: Codec, files: Files, v: Violation) {
    match ReadArtifacts(c, files)
    case None => v.ArtifactsUnreadable?
    case Some(index) => exists a :: a in index.artifacts && EntryViolated(c, files, a, v)
  }

  /** The violations of a directory, each with its own meaning. */
  predicate Violated(c: Codec, files: Files, v: Violation) {
    match ReadManifest(c, files)
    case None => v.ManifestUnreadable?
    case Some(m) =>
      || IdentityViolated(c, m, v)
      || RecordViolated(c, files, m, v)
      || ProvenanceViolated(c, files, m, v)
      || PartViolated(c, files, m, v)
      || ArtifactViolated(c, files, v)
  }

  method ReportIdentity(normalized: bool, sameHash: bool, sameId: bool) returns (violations: seq<Violation>)
    ensures forall v :: v in violations <==>
              match v
              case AnchorNotNormalized => !normalized
              case IdentityHashMismatch => !sameHash
              case IdMismatch => !sameId
              case _ => false
  {
    violations := [];
    if !normalized { violations := violations + [AnchorNotNormalized]; }
    if !sameHash { violations := violations + [IdentityHashMismatch]; }
    if !sameId { violations := violations + [IdMismatch]; }
  }

  method VerifyManifestIdentity(c: Codec, m: Manifest) returns (violations: seq<Violation>)
    ensures forall v :: v in violations <==> IdentityViolated(c, m, v)
  {
    violations := ReportIdentity(
      Normalize(m.identityCore.primaryAnchor) == m.identityCore.primaryAnchor,
      IdentityHash(c, m.identityCore) == m.identityHash,
      MintId(c, m.identityCore) == m.id);
  }

  method CompareCore(m: Manifest, f: Frontmatter) returns (violations: seq<Violation>)
    ensures forall v :: v in violations <==> CoreViolated(m, f, v)
  {
    violations := [];
    if f.id != m.id { violations := violations + [RecordId]; }
    if f.kind != m.identityCore.kind { violations := violations + [RecordKind]; }
    if f.subtype != m.identityCore.subtype { violations := violations + [RecordSubtype]; }
    if f.scope != m.identityCore.scope { violations := violations + [RecordScope]; }
    if f.anchors == [] || f.anchors[0].normalized != m.identityCore.primaryAnchor {
      violations := violations + [RecordAnchor];
    }
  }

  method CompareEcho(m: Manifest, f: Frontmatter, embeddingInput: string) returns (violations: seq<Violation>)
    ensures forall v :: v in violations <==> EchoViolated(m, f, embeddingInput, v)
  {
    violations := [];
    if f.createdAtOrdinal != m.createdAtOrdinal { violations := violations + [RecordOrdinal]; }
    if f.originClass != m.originClass { violations := violations + [RecordOrigin]; }
    if f.evidenceIncomplete != m.evidenceIncomplete { violations := violations + [RecordEvidence]; }
    if embeddingInput != m.embeddingInput { violations := violations + [RecordEmbedding]; }
  }

  method VerifyRecord(c: Codec, files: Files, m: Manifest) returns (violations: seq<Violation>)
    ensures forall v :: v in violations <==> RecordViolated(c, files, m, v)
  {
    match ReadRecord(c, files) {
      case None => violations := [RecordUnreadable];
      case Some((f, prose)) =>
        var core := CompareCore(m, f);
        var echo := CompareEcho(m, f, EmbeddingInput(c, prose, f.anchors));
        violations := core + echo;
    }
  }

  method VerifyProvenance(c: Codec, files: Files, m: Manifest) returns (violations: seq<Violation>)
    ensures forall v :: v in violations <==> ProvenanceViolated(c, files, m, v)
  {
    match ReadProvenance(c, files) {
      case None => violations := [ProvenanceUnreadable];
      case Some(p) => violations := if p.originClass != m.originClass then [ProvenanceOrigin] else [];
    }
  }

  lemma DigestStep(c: Codec, files: Files, m: Manifest, done: set<string>, p: string)
    requires p in m.contentHashes && p !in done
    ensures forall v :: DigestViolated(c, files, m, done + {p}, v) <==>
              || DigestViolated(c, files, m, done, v)
              || (p !in files && v == PartMissing(p))
              || (p in files && c.sha(files[p]) != m.contentHashes[p] && v == PartHashMismatch(p))
  {
  }

  method VerifyDigests(c: Codec, files: Files, m: Manifest)
    returns (violations: seq<Violation>, actual: map<string, string>)
    ensures forall v :: v in violations <==> DigestViolated(c, files, m, m.contentHashes.Keys, v)
    ensures actual == ActualDigests(c, files, m)
  {
    violations, actual := [], map[];
    var pending := m.contentHashes.Keys;
    ghost var done: set<string> := {};
    while pending != {}
      invariant done + pending == m.contentHashes.Keys && done !! pending
      invariant forall p :: p in actual <==> p in done && p in files
      invariant forall p :: p in actual ==> actual[p] == c.sha(files[p])
      invariant forall v :: v in violations <==> DigestViolated(c, files, m, done, v)
      decreases pending
    {
      var relPath :| relPath in pending;
      DigestStep(c, files, m, done, relPath);
      pending := pending - {relPath};
      done := done + {relPath};
      if relPath !in files {
        violations := violations + [PartMissing(relPath)];
      } else {
        actual := actual[relPath := c.sha(files[relPath])];
        if actual[relPath] != m.contentHashes[relPath] {
          violations := violations + [PartHashMismatch(relPath)];
        }
      }
    }
    assert done == m.contentHashes.Keys;
  }

  method VerifyParts(c: Codec, files: Files, m: Manifest) returns (violations: seq<Violation>)
    ensures forall v :: v in violations <==> PartViolated(c, files, m, v)
  {
    var digests, actual := VerifyDigests(c, files, m);
    violations := digests + (if m.complete then [] else [BundleIncomplete]);
    if MutableHash(c, actual) != m.mutableStateHash {
      violations := violations + [MutableStateMismatch];
    }
  }

  method VerifyArtifacts(c: Codec, files: Files) returns (violations: seq<Violation>)
    ensures forall v :: v in violations <==> ArtifactViolated(c, files, v)
  {
    violations := [];
    match ReadArtifacts(c, files) {
      case None => violations := [ArtifactsUnreadable];
      case Some(index) =>
        for i := 0 to |index.artifacts|
          invariant forall v :: v in violations <==>
                      exists a :: a in index.artifacts[..i] && EntryViolated(c, files, a, v)
        {
          var artifact := index.artifacts[i];
          ghost var before := violations;
          if artifact.relPath !in files {
            violations := violations + [ArtifactDangling(artifact.relPath)];
          } else {
            if c.sha(files[artifact.relPath]) != artifact.sha {
              violations := violations + [ArtifactHashMismatch(artifact.relPath)];
            }
            if |files[artifact.relPath]| != artifact.bytes {
              violations := violations + [ArtifactLengthMismatch(artifact.relPath)];
            }
          }
          assert forall v :: v in violations <==> v in before || EntryViolated(c, files, artifact, v);
          assert index.artifacts[..i + 1] == index.artifacts[..i] + [artifact];
        }
        assert index.artifacts[..|index.artifacts|] == index.artifacts;
    }
  }

  method VerifyBundleIntegrity(c: Codec, files: Files) returns (violations: seq<Violation>)
    ensures forall v :: v in violations <==> Violated(c, files, v)
    ensures violations == [] <==> Verified(c, files)
  {
    AcceptedIff(c, files);
    match ReadManifest(c, files) {
      case None => violations := [ManifestUnreadable];
      case Some(m) =>
        var identity := VerifyManifestIdentity(c, m);
        var record := VerifyRecord(c, files, m);
        var provenance := VerifyProvenance(c, files, m);
        var parts := VerifyParts(c, files, m);
        var artifacts := VerifyArtifacts(c, files);
        violations := identity + record + provenance + parts + artifacts;
    }
    if violations != [] { assert Violated(c, files, violations[0]); }
  }

  lemma DigestsAcceptedIff(c: Codec, files: Files, m: Manifest)
    ensures (forall v :: !DigestViolated(c, files, m, m.contentHashes.Keys, v)) <==> HashesMatch(c, files, m)
  {
    var paths := m.contentHashes.Keys;
    if forall v :: !DigestViolated(c, files, m, paths, v) {
      forall p | p in m.contentHashes ensures p in files && c.sha(files[p]) == m.contentHashes[p] {
        assert !DigestViolated(c, files, m, paths, PartMissing(p));
        assert !DigestViolated(c, files, m, paths, PartHashMismatch(p));
      }
    }
  }

  lemma PartsAcceptedIff(c: Codec, files: Files, m: Manifest)
    ensures (forall v :: !PartViolated(c, files, m, v)) <==>
            m.complete && HashesMatch(c, files, m) && MutableHash(c, ActualDigests(c, files, m)) == m.mutableStateHash
  {
    DigestsAcceptedIff(c, files, m);
    if forall v :: !PartViolated(c, files, m, v) {
      assert !PartViolated(c, files, m, BundleIncomplete);
      assert !PartViolated(c, files, m, MutableStateMismatch);
      forall v ensures !DigestViolated(c, files, m, m.contentHashes.Keys, v) {
        assert !PartViolated(c, files, m, v);
      }
    }
  }

  lemma IdentityAcceptedIff(c: Codec, m: Manifest)
    ensures (forall v :: !IdentityViolated(c, m, v)) <==> IdentityHolds(c, m)
  {
    hide Normalize, IdentityHash, MintId;
    if forall v :: !IdentityViolated(c, m, v) {
      assert !IdentityViolated(c, m, AnchorNotNormalized);
      assert !IdentityViolated(c, m, IdentityHashMismatch);
      assert !IdentityViolated(c, m, IdMismatch);
    }
  }

  lemma RecordAcceptedIff(c: Codec, files: Files, m: Manifest)
    ensures (forall v :: !RecordViolated(c, files, m, v)) <==> RecordBinds(c, files, m)
  {
    if forall v :: !RecordViolated(c, files, m, v) {
      assert !RecordViolated(c, files, m, RecordUnreadable);
      assert !RecordViolated(c, files, m, RecordId) && !RecordViolated(c, files, m, RecordKind);
      assert !RecordViolated(c, files, m, RecordSubtype) && !RecordViolated(c, files, m, RecordScope);
      assert !RecordViolated(c, files, m, RecordAnchor) && !RecordViolated(c, files, m, RecordOrdinal);
      assert !RecordViolated(c, files, m, RecordOrigin) && !RecordViolated(c, files, m, RecordEvidence);
      assert !RecordViolated(c, files, m, RecordEmbedding);
    }
  }

  lemma ProvenanceAcceptedIff(c: Codec, files: Files, m: Manifest)
    ensures (forall v :: !ProvenanceViolated(c, files, m, v)) <==> ProvenanceBinds(c, files, m)
  {
    if forall v :: !ProvenanceViolated(c, files, m, v) {
      assert !ProvenanceViolated(c, files, m, ProvenanceUnreadable);
      assert !ProvenanceViolated(c, files, m, ProvenanceOrigin);
    }
  }

  lemma ArtifactsAcceptedIff(c: Codec, files: Files)
    ensures (forall v :: !ArtifactViolated(c, files, v)) <==> ArtifactsHold(c, files)
  {
    match ReadArtifacts(c, files)
    case None => assert ArtifactViolated(c, files, ArtifactsUnreadable);
    case Some(index) =>
      if forall v :: !ArtifactViolated(c, files, v) {
        forall k | 0 <= k < |index.artifacts|
          ensures
            && index.artifacts[k].relPath in files
            && c.sha(files[index.artifacts[k].relPath]) == index.artifacts[k].sha
            && |files[index.artifacts[k].relPath]| == index.artifacts[k].bytes
        {
          var a := index.artifacts[k];
          assert a in index.artifacts;
          assert !ArtifactViolated(c, files, ArtifactDangling(a.relPath));
          assert !EntryViolated(c, files, a, ArtifactDangling(a.relPath));
          assert !ArtifactViolated(c, files, ArtifactHashMismatch(a.relPath));
          assert !EntryViolated(c, files, a, ArtifactHashMismatch(a.relPath));
          assert !ArtifactViolated(c, files, ArtifactLengthMismatch(a.relPath));
          assert !EntryViolated(c, files, a, ArtifactLengthMismatch(a.relPath));
        }
      }
      if ArtifactsHold(c, files) {
        forall v ensures !ArtifactViolated(c, files, v) {
          forall a | a in index.artifacts ensures !EntryViolated(c, files, a, v) {
            var k :| 0 <= k < |index.artifacts| && index.artifacts[k] == a;
          }
        }
      }
  }

  /** No violation holds exactly when the manifest agrees with everything: both readings of `ok` coincide. */
  lemma AcceptedIff(c: Codec, files: Files)
    ensures (forall v :: !Violated(c, files, v)) <==> Verified(c, files)
  {
    match ReadManifest(c, files)
    case None => assert Violated(c, files, ManifestUnreadable);
    case Some(m) =>
      IdentityAcceptedIff(c, m);
      RecordAcceptedIff(c, files, m);
      ProvenanceAcceptedIff(c, files, m);
      PartsAcceptedIff(c, files, m);
      ArtifactsAcceptedIff(c, files);
      assert (forall v :: !Violated(c, files, v)) ==>
        && (forall v :: !IdentityViolated(c, m, v)) && (forall v :: !RecordViolated(c, files, m, v))
        && (forall v :: !ProvenanceViolated(c, files, m, v)) && (forall v :: !PartViolated(c, files, m, v))
        && (forall v :: !ArtifactViolated(c, files, v)) by {
        if forall v :: !Violated(c, files, v) {
          forall v ensures !IdentityViolated(c, m, v) && !RecordViolated(c, files, m, v) && !ProvenanceViolated(c, files, m, v)
            && !PartViolated(c, files, m, v) && !ArtifactViolated(c, files, v) { assert !Violated(c, files, v); }
        }
      }
  }
}
