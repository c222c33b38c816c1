/** Small real bundles: rendered from a given draft, verified, loadable and servable under every lawful codec. */
module Specimens {
  import opened Prelude
  import opened Anchors
  import opened RecordMarkdown
  import opened Outcomes
  import opened BundleModel
  import opened BundleParts
  import opened BundleLoad

  function SpecimenInput(anchors: seq<Anchor>, p: Provenance, observations: Option<string>): RenderInput {
    RenderInput(
      Draft(Procedure, None, anchors, Scope("product", "p"), "", ""), Discriminant(Procedure, None, ""),
      AgentObserved, 1, [], [], [], p, [], [], false, None, observations)
  }

  function SpecimenFiles(c: Codec, anchors: seq<Anchor>, p: Provenance, observations: Option<string>): Files
    requires anchors != []
  {
    StagedFiles(map[], RenderWith(c, SpecimenInput(anchors, p, observations), None))
  }

  /** What a specimen reads back as. */
  predicate IsSpecimen(c: Codec, anchors: seq<Anchor>, p: Provenance, b: LoadedBundle)
    requires anchors != []
  {
    && b.front.anchors == AnchorPairs(anchors)
    && b.manifest.id == MintId(c, IdentityInput(SpecimenInput(anchors, p, None), None))
    && b.provenance == p.(originClass := AgentObserved)
    && b.events == [] && b.gates == [] && b.manifest.createdAtOrdinal == 1
    && IsServable(TrustOf(b))
  }

  lemma Specimen(c: Codec, anchors: seq<Anchor>, p: Provenance, observations: Option<string>)
    requires Lawful(c) && anchors != [] && Stable(anchors[0])
    ensures
      var files := SpecimenFiles(c, anchors, p, observations);
      && Verified(c, files) && LoadBundle(c, files).Loaded?
      && IsSpecimen(c, anchors, p, LoadBundle(c, files).bundle)
      && Lookup(files, OBSERVATIONS) == observations
  {
    hide Lawful, Verified, LoadBundle, SummarySafe, Stable, RenderWith, StagedFiles, IsSpecimen;
    var input := SpecimenInput(anchors, p, observations);
    QuotedSeparator();
    SpecimenRenders(c, anchors, p, observations);
    RenderVerifiedIff(c, map[], input);
    RenderedLoadsIff(c, map[], input, None);
    SpecimenReads(c, anchors, p, observations, LoadBundle(c, SpecimenFiles(c, anchors, p, observations)).bundle);
    SpecimenLog(c, anchors, p, observations);
  }

  lemma SpecimenRenders(c: Codec, anchors: seq<Anchor>, p: Provenance, observations: Option<string>)
    requires anchors != []
    ensures
      var input := SpecimenInput(anchors, p, observations);
      RenderBundleParts(c, input) == Ok(RenderWith(c, input, None)) && RowsReadable(input.copied, input.skipped)
  {
    hide RenderWith;
  }

  lemma SpecimenReads(c: Codec, anchors: seq<Anchor>, p: Provenance, observations: Option<string>, b: LoadedBundle)
    requires anchors != []
    requires
      var input := SpecimenInput(anchors, p, observations);
      ReadsAs(c, input, RenderWith(c, input, None), b)
    ensures IsSpecimen(c, anchors, p, b)
  {
    hide HashedParts, AnchorPairs, MintId, EmbeddingInput, Trust;
    NothingHappened(b.provenance.originClass, b.manifest.evidenceIncomplete, b.manifest.createdAtOrdinal);
  }

  /** A bundle without events is a candidate with an open window. */
  lemma NothingHappened(origin: OriginClass, incomplete: bool, at: int)
    ensures IsServable(Trust([], origin, incomplete, at))
  {
    assert Surviving([]) == [];
  }

  lemma SpecimenLog(c: Codec, anchors: seq<Anchor>, p: Provenance, observations: Option<string>)
    requires anchors != []
    ensures Lookup(SpecimenFiles(c, anchors, p, observations), OBSERVATIONS) == observations
  {
    hide RecordOf, RecordText, EventLines, RenderArtifactIndex, ManifestOf, PartsMap;
    var input := SpecimenInput(anchors, p, observations);
    var rendered := RenderWith(c, input, None);
    var parts := rendered.parts;
    var n := |OptionalPart(OBSERVATIONS, observations)|;
    assert parts == parts[..3] + OptionalPart(OBSERVATIONS, observations) + parts[3 + n..];
    assert parts[3 + n].relPath == OUTCOMES && parts[4 + n].relPath == ARTIFACTS_INDEX && parts[5 + n].relPath == MANIFEST;
    OtherPaths();
    LogAmong(parts[..3], observations, parts[3 + n..]);
    assert map[] + PartsMap(parts) == PartsMap(parts);
  }

  lemma OtherPaths()
    ensures OBSERVATIONS != RECORD && OBSERVATIONS != PROVENANCE && OBSERVATIONS != RELATIONS
    ensures OBSERVATIONS != OUTCOMES && OBSERVATIONS != ARTIFACTS_INDEX && OBSERVATIONS != MANIFEST
  {
    assert OBSERVATIONS[0] == 'o' && RECORD[0] == 'r' && PROVENANCE[0] == 'p' && RELATIONS[0] == 'r';
    assert OUTCOMES[0] == 'e' && ARTIFACTS_INDEX[0] == 'a' && MANIFEST[0] == 'm';
  }

  lemma LogAmong(front: seq<Part>, observations: Option<string>, back: seq<Part>)
    requires forall q :: q in front || q in back ==> q.relPath != OBSERVATIONS
    ensures Lookup(PartsMap(front + OptionalPart(OBSERVATIONS, observations) + back), OBSERVATIONS) == observations
  {
    hide PartsMap;
    var parts := front + OptionalPart(OBSERVATIONS, observations) + back;
    if observations == None {
      PathsOnly(parts, OBSERVATIONS);
    } else {
      assert parts[|front|] == Part(OBSERVATIONS, observations.value);
      PartsMapHas(parts, |front|);
    }
  }

  lemma {:induction false} PathsOnly(parts: seq<Part>, path: string)
    requires forall i :: 0 <= i < |parts| ==> parts[i].relPath != path
    ensures path !in PartsMap(parts)
  {
    if parts != [] { PathsOnly(parts[..|parts| - 1], path); }
  }
}
