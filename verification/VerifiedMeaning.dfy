/** What the integrity check and the look at an existing bundle establish, fact by fact. */
module VerifiedMeaning {
  import opened Prelude
  import opened Anchors
  import opened RecordMarkdown
  import opened BundleModel
  import opened BundleParts
  import opened MutableState
  import opened Publish
  import opened ArtifactCopy

  /** The manifest's own identity is the one its core hashes to, and its anchor is a normal form. */
  predicate OwnIdentity(c: Codec, m: Manifest) {
    && Normalize(m.identityCore.primaryAnchor) == m.identityCore.primaryAnchor
    && m.identityHash == c.sha(c.identityText(m.identityCore))
    && m.id == c.slug(m.identityCore.kind, m.identityCore.primaryAnchor) + "-" + Take(m.identityHash, 16)
  }

  /** Every fact of the record that the manifest repeats is the same in both. */
  predicate SameRecord(c: Codec, m: Manifest, f: Frontmatter, p: Prose) {
    && f.id == m.id && f.kind == m.identityCore.kind && f.subtype == m.identityCore.subtype
    && f.scope == m.identityCore.scope && f.createdAtOrdinal == m.createdAtOrdinal && f.originClass == m.originClass
    && f.evidenceIncomplete == m.evidenceIncomplete
    && |f.anchors| > 0 && f.anchors[0].normalized == m.identityCore.primaryAnchor
    && m.embeddingInput == EmbeddingInput(c, p, f.anchors)
  }

  /** Every listed part is there with its digest. */
  predicate ListedHold(c: Codec, files: Files, m: Manifest) {
    forall path :: path in m.contentHashes ==> path in files && m.contentHashes[path] == c.sha(files[path])
  }

  /** Every artifact row has its file, of its digest and length. */
  predicate RowsHold(c: Codec, files: Files, index: ArtifactsIndex) {
    forall a :: a in index.artifacts ==>
      a.relPath in files && c.sha(files[a.relPath]) == a.sha && |files[a.relPath]| == a.bytes
  }

  lemma OwnIdentityIff(c: Codec, m: Manifest)
    ensures OwnIdentity(c, m) <==> IdentityHolds(c, m)
  {
    hide Normalize;
    if Normalize(m.identityCore.primaryAnchor) == m.identityCore.primaryAnchor {
      assert m.identityCore.(primaryAnchor := Normalize(m.identityCore.primaryAnchor)) == m.identityCore;
    }
  }

  /**
   * A bundle is verified exactly when its four documents read and agree: the manifest is complete, is its own
   * identity, lists parts that are there as listed, and hashes their mutable state; the record and the
   * provenance repeat the manifest; and every artifact row has its file.
   */
  lemma VerifiedIff(c: Codec, files: Files)
    requires ShaSeparates(c) && HashedLawful(c)
    ensures Verified(c, files) <==>
            && ReadManifest(c, files).Some? && ReadRecord(c, files).Some?
            && ReadProvenance(c, files).Some? && ReadArtifacts(c, files).Some?
            && var m := ReadManifest(c, files).value;
            && m.complete && OwnIdentity(c, m) && ListedHold(c, files, m)
            && SameRecord(c, m, ReadRecord(c, files).value.0, ReadRecord(c, files).value.1)
            && ReadProvenance(c, files).value.originClass == m.originClass
            && m.mutableStateHash == MutableHash(c, m.contentHashes)
            && RowsHold(c, files, ReadArtifacts(c, files).value)
  {
    hide IdentityHolds, OwnIdentity, ReadRecord, ReadProvenance, ReadArtifacts, EmbeddingInput, MutableHash;
    if ReadManifest(c, files).Some? {
      var m := ReadManifest(c, files).value;
      OwnIdentityIff(c, m);
      assert ListedHold(c, files, m) <==> HashesMatch(c, files, m);
      if HashesMatch(c, files, m) { MatchingDigests(c, files, m); }
      if ReadArtifacts(c, files).Some? {
        var rows := ReadArtifacts(c, files).value.artifacts;
        assert forall k :: 0 <= k < |rows| ==> rows[k] in rows;
      }
    }
  }

  // ----- an existing bundle -----

  /** What was found is a complete bundle with the manifest's own identity. */
  predicate Sound(c: Codec, files: Files) {
    ReadManifest(c, files).Some? && ReadManifest(c, files).value.complete && OwnIdentity(c, ReadManifest(c, files).value)
  }

  /**
   * Looking at an existing bundle: it reads as corrupt exactly when its manifest is not sound, as another
   * identity exactly when it is and hashes differently, and as the same otherwise; that the hashes agree and the
   * cores do not is never the answer.
   */
  lemma ClassifiedIff(c: Codec, files: Files, input: RenderInput)
    requires Lawful(c) && RenderBundleParts(c, input).Ok?
    ensures
      var expected := RenderBundleParts(c, input).value.manifest;
      var seen := if ReadManifest(c, files).Some? then Some(ReadManifest(c, files).value.identityHash) else None;
      Classified(c, files, expected) ==
      if !Sound(c, files) then Collision(expected.id, ManifestCorrupt, seen)
      else if seen.value != expected.identityHash then Collision(expected.id, HashMismatch, seen)
      else AlreadyExists(expected.id, ReadManifest(c, files).value)
  {
    hide Lawful, OwnIdentity, IdentityHolds, Normalize, HashedParts, MintId, IdentityHash;
    if ReadManifest(c, files).Some? {
      var m, expected := ReadManifest(c, files).value, RenderBundleParts(c, input).value.manifest;
      OwnIdentityIff(c, m);
      if Sound(c, files) && m.identityHash == expected.identityHash { SameCore(c, m, input); }
    }
  }

  lemma SameCore(c: Codec, m: Manifest, input: RenderInput)
    requires Lawful(c) && RenderBundleParts(c, input).Ok? && IdentityHolds(c, m)
    requires m.identityHash == RenderBundleParts(c, input).value.manifest.identityHash
    ensures m.identityCore == RenderBundleParts(c, input).value.manifest.identityCore
  {
    hide Normalize, HashedParts, EmbeddingInput;
    LawfulParts(c);
    var subtype := ValidateIdentityInputs(input.draft, input.discriminant).value;
    IdentityHashIff(c, m.identityCore, IdentityInput(input, subtype));
  }

  // ----- what staging says about its artifacts -----

  lemma {:induction false} SkippedRows(rows: seq<Row>)
    ensures SkippedOf(rows) == [] <==> forall row :: row in rows ==> row.Copied?
  {
    if rows != [] {
      SkippedRows(rows[1..]);
      assert rows == [rows[0]] + rows[1..];
      if rows[0].Skipped? {
        assert rows[0] in rows && |SkippedOf(rows)| > 0;
      } else {
        assert SkippedOf(rows) == SkippedOf(rows[1..]);
      }
    }
  }

  /** A staged bundle says its evidence is incomplete exactly when some artifact was refused, before or while copying. */
  lemma EvidenceIncompleteIff(c: Codec, req: Request)
    requires TreeOf(c, req).Some?
    ensures
      var t := CopyFrom(CopySetting(c, req), State(map[], Budget(map[], 0)), 0, req.artifacts);
      && t.Trace?
      && (TreeOf(c, req).value.rendered.manifest.evidenceIncomplete <==>
          req.preSkipped != [] || exists row :: row in t.rows && row.Skipped?)
  {
    hide CopyFrom, HashedParts, EmbeddingInput, MintId, IdentityHash;
    var t := CopyFrom(CopySetting(c, req), State(map[], Budget(map[], 0)), 0, req.artifacts);
    SkippedRows(t.rows);
    SkipsJoined(req.preSkipped, SkippedOf(t.rows));
  }

  lemma SkipsJoined(a: seq<SkippedArtifact>, b: seq<SkippedArtifact>)
    ensures a + b != [] <==> a != [] || b != []
  {
  }
}
