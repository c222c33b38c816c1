/** What the hashes of a bundle cover, and which operations the mutable-state hash notices. */
module MutableState {
  import opened Prelude
  import opened RecordMarkdown
  import opened Anchors
  import opened Lines
  import opened Outcomes
  import opened BundleModel
  import opened BundleParts
  import opened BundleAppend
  import opened BundleLogs
  import RenderMeaning
  import Specimens

  // ----- what each hash covers -----

  /** The five digests, present or absent, that the mutable state consists of. */
  predicate SameMutableState(a: map<string, string>, b: map<string, string>) {
    && Lookup(a, OUTCOMES) == Lookup(b, OUTCOMES)
    && Lookup(a, RELATIONS) == Lookup(b, RELATIONS)
    && Lookup(a, ARTIFACTS_INDEX) == Lookup(b, ARTIFACTS_INDEX)
    && Lookup(a, MEASUREMENTS) == Lookup(b, MEASUREMENTS)
    && Lookup(a, GATES) == Lookup(b, GATES)
  }

  lemma DigestsApart(c: Codec, s: string, t: string)
    requires ShaSeparates(c)
    ensures c.sha(s) == c.sha(t) <==> s == t
  {
    assert c.textOfSha(c.sha(s)) == s && c.textOfSha(c.sha(t)) == t;
  }

  /** Two manifests have one mutable-state hash exactly when those five digests agree. */
  lemma MutableHashIff(c: Codec, a: map<string, string>, b: map<string, string>)
    requires ShaSeparates(c) && HashedLawful(c)
    ensures MutableHash(c, a) == MutableHash(c, b) <==> SameMutableState(a, b)
  {
    var p := MutableParts(Lookup(a, OUTCOMES), Lookup(a, RELATIONS), Lookup(a, ARTIFACTS_INDEX),
                          Lookup(a, MEASUREMENTS), Lookup(a, GATES));
    var q := MutableParts(Lookup(b, OUTCOMES), Lookup(b, RELATIONS), Lookup(b, ARTIFACTS_INDEX),
                          Lookup(b, MEASUREMENTS), Lookup(b, GATES));
    DigestsApart(c, c.mutableText(p), c.mutableText(q));
  }

  /** Two cores have one identity hash exactly when they agree, the anchors up to normalisation. */
  lemma IdentityHashIff(c: Codec, a: IdentityCore, b: IdentityCore)
    requires ShaSeparates(c) && HashedLawful(c)
    ensures IdentityHash(c, a) == IdentityHash(c, b) <==>
            && a.kind == b.kind && a.subtype == b.subtype && a.scope == b.scope && a.discriminantKey == b.discriminantKey
            && Normalize(a.primaryAnchor) == Normalize(b.primaryAnchor)
  {
    hide Normalize;
    var x, y := a.(primaryAnchor := Normalize(a.primaryAnchor)), b.(primaryAnchor := Normalize(b.primaryAnchor));
    DigestsApart(c, c.identityText(x), c.identityText(y));
  }

  /** The digest of a gate line covers every field but itself. */
  lemma GateDigestIff(c: Codec, g: GateLine, h: GateLine)
    requires ShaSeparates(c) && HashedLawful(c)
    ensures GateDigest(c, g) == GateDigest(c, h) <==>
            && g.candidateId == h.candidateId && g.producedAtOrdinal == h.producedAtOrdinal
            && if g.GateReceipt? then h.GateReceipt? && g.detail == h.detail
               else h.PromotionReceipt? && g.promotionPath == h.promotionPath
                    && g.citedReceiptDigests == h.citedReceiptDigests
  {
    DigestsApart(c, c.gateBody(Undigested(g)), c.gateBody(Undigested(h)));
  }

  // ----- which operations move the mutable-state hash -----

  /** A part with another text is a part with another digest, listed before or not. */
  lemma RewriteMoves(c: Codec, files: Files, m: Manifest, path: string, text: string)
    requires Lawful(c) && HashesMatch(c, files, m) && AppendTarget(path)
    requires MutableHash(c, m.contentHashes) == m.mutableStateHash
    requires path in files ==> files[path] != text
    ensures RewriteManifest(c, m, path, text).mutableStateHash != m.mutableStateHash
  {
    var hashes := m.contentHashes[path := c.sha(text)];
    MutableHashIff(c, m.contentHashes, hashes);
    if path in m.contentHashes { DigestsApart(c, files[path], text); }
    assert Lookup(hashes, path) != Lookup(m.contentHashes, path);
  }

  /** The plan replaces one append-only part by another text. */
  predicate Rewrites(c: Codec, files: Files, m: Manifest, plan: Plan) {
    && plan.Answers? && plan.answer.Appended? && |plan.replacements| == 2
    && var r := plan.replacements[0];
    && AppendTarget(r.relPath) && plan.replacements == CommitOne(c, m, r.relPath, r.text)
    && (r.relPath in files ==> files[r.relPath] != r.text)
  }

  /** The plan writes nothing and reports no append. */
  predicate WritesNothing(plan: Plan) {
    plan.Throws? || (!plan.answer.Appended? && plan.replacements == [])
  }

  lemma GrownText(text: string, line: string)
    ensures text + line + "\n" != text
  {
    assert |text + line + "\n"| == |text| + |line| + 1;
  }

  lemma OutcomeRewrites(c: Codec, files: Files, m: Manifest, event: Event)
    ensures WritesNothing(PlanOutcome(c, m, files, event)) || Rewrites(c, files, m, PlanOutcome(c, m, files, event))
  {
    GrownText(TextAt(files, OUTCOMES), c.eventText(event));
  }

  lemma GateRewrites(c: Codec, files: Files, m: Manifest, line: GateLine)
    ensures Rewrites(c, files, m, PlanGateLine(c, m, files, line))
  {
    GrownText(TextAt(files, GATES), c.gateText(line));
  }

  lemma PlansRewrite(c: Codec, id: string, files: Files, m: Manifest, op: Op)
    requires Lawful(c)
    requires !(op.AppendOutcomeEventWithEnrichment? && ReadProvenance(c, files).Some?
               && WantsEnrichment(ReadProvenance(c, files).value))
    ensures
      var plan := PlanComplete(c, id, m, files, op);
      WritesNothing(plan) || Rewrites(c, files, m, plan)
  {
    hide Lawful, Rewrites, PlanGateLine, PlanOutcome;
    match op
    case AppendGateReceipt(line) => GateRewrites(c, files, m, line);
    case AppendPromotionReceipt(_, _, _, _) => GateRewrites(c, files, m, StampedPromotion(c, op));
    case AppendOutcomeEvent(event) => OutcomeRewrites(c, files, m, event);
    case WriteMeasurementBaseline(baseline) =>
      if MEASUREMENTS !in files { BaselineRewrites(c, files, m, baseline); }
    case AppendMeasurementObservation(observation) =>
      if MEASUREMENTS in files { ObservationRewrites(c, files, m, observation); }
    case AppendRelation(relation) =>
      if RELATIONS in files && c.parseRelations(files[RELATIONS]).Some? { RelationRewrites(c, files, m, relation); }
    case AppendOutcomeEventWithEnrichment(event, _, _) => OutcomeRewrites(c, files, m, event);
  }

  lemma BaselineRewrites(c: Codec, files: Files, m: Manifest, baseline: string)
    requires MEASUREMENTS !in files
    ensures Rewrites(c, files, m, Answers(Appended(false), CommitOne(c, m, MEASUREMENTS, c.baselineText(baseline) + "\n")))
  {
  }

  lemma ObservationRewrites(c: Codec, files: Files, m: Manifest, observation: string)
    requires MEASUREMENTS in files
    ensures
      var text := files[MEASUREMENTS] + c.observationText(observation) + "\n";
      Rewrites(c, files, m, Answers(Appended(false), CommitOne(c, m, MEASUREMENTS, text)))
  {
    GrownText(files[MEASUREMENTS], c.observationText(observation));
  }

  lemma RelationRewrites(c: Codec, files: Files, m: Manifest, relation: Relation)
    requires Lawful(c) && RELATIONS in files && c.parseRelations(files[RELATIONS]).Some?
    ensures
      var text := c.relationsText(c.parseRelations(files[RELATIONS]).value + [relation]);
      Rewrites(c, files, m, Answers(Appended(false), CommitOne(c, m, RELATIONS, text)))
  {
    var existing := c.parseRelations(files[RELATIONS]).value;
    assert c.parseRelations(c.relationsText(existing + [relation])) == Some(existing + [relation]);
    assert |existing + [relation]| != |existing|;
  }

  /** The hash of the manifest as it stands. */
  function StateHash(c: Codec, files: Files): string
    requires ReadManifest(c, files).Some?
  {
    ReadManifest(c, files).value.mutableStateHash
  }

  /** The operation is answered as an append, or enriches a bundle whose manifest does not list its outcome log. */
  predicate Noticed(c: Codec, files: Files, plan: Plan)
    requires ReadManifest(c, files).Some?
  {
    && plan.Answers?
    && (plan.answer.Appended? || (plan.answer == Duplicate(true) && OUTCOMES !in ReadManifest(c, files).value.contentHashes))
  }

  /**
   * An operation on a verified bundle changes its mutable-state hash exactly when it is answered as an
   * append; an enrichment whose event is already logged keeps it, provided the manifest lists the log.
   */
  lemma StepMovesHashIff(c: Codec, id: string, files: Files, op: Op)
    requires Lawful(c) && Verified(c, files)
    ensures ReadManifest(c, Step(c, id, files, op)).Some?
    ensures StateHash(c, Step(c, id, files, op)) != StateHash(c, files) <==> Noticed(c, files, PlanOf(c, id, files, op))
  {
    hide Lawful, RecordBinds, ProvenanceBinds, IdentityHolds, ArtifactsHold, PlanComplete;
    var m := ReadManifest(c, files).value;
    StepVerifiedIff(c, id, files, op);
    assert PlanOf(c, id, files, op) == PlanComplete(c, id, m, files, op);
    MatchingDigests(c, files, m);
    if Enriches(c, id, files, op) {
      EnrichmentPlanned(c, id, files, m, op);
      EnrichmentMovesIff(c, files, m, ReadProvenance(c, files).value, op);
    } else {
      PlainMovesIff(c, id, files, m, op);
    }
  }

  lemma PlainMovesIff(c: Codec, id: string, files: Files, m: Manifest, op: Op)
    requires Lawful(c) && Verified(c, files) && ReadManifest(c, files) == Some(m)
    requires MutableHash(c, m.contentHashes) == m.mutableStateHash
    requires PlanOf(c, id, files, op) == PlanComplete(c, id, m, files, op) && !Enriches(c, id, files, op)
    ensures
      var after := Step(c, id, files, op);
      && ReadManifest(c, after).Some?
      && (StateHash(c, after) != m.mutableStateHash <==> Noticed(c, files, PlanOf(c, id, files, op)))
  {
    hide Lawful, RecordBinds, ProvenanceBinds, IdentityHolds, ArtifactsHold, PlanComplete, MutableHash;
    var plan := PlanOf(c, id, files, op);
    UnenrichedRewrites(c, id, files, m, op);
    if Rewrites(c, files, m, plan) {
      var path, text := plan.replacements[0].relPath, plan.replacements[0].text;
      assert ManifestLawful(c) && PartsLawful(c) by { LawfulParts(c); }
      AppendKeepsVerified(c, files, path, text);
      RewriteMoves(c, files, m, path, text);
    }
  }

  lemma LawfulParts(c: Codec)
    requires Lawful(c)
    ensures ManifestLawful(c) && PartsLawful(c) && ShaSeparates(c) && HashedLawful(c)
  {
  }

  lemma UnenrichedRewrites(c: Codec, id: string, files: Files, m: Manifest, op: Op)
    requires Lawful(c) && PlanOf(c, id, files, op) == PlanComplete(c, id, m, files, op)
    requires !Enriches(c, id, files, op)
    ensures
      var plan := PlanOf(c, id, files, op);
      (WritesNothing(plan) && !(plan.Answers? && plan.answer == Duplicate(true))) || Rewrites(c, files, m, plan)
  {
    hide Lawful;
    if op.AppendOutcomeEventWithEnrichment? && ReadProvenance(c, files).Some?
       && WantsEnrichment(ReadProvenance(c, files).value) {
      assert PlanComplete(c, id, m, files, op) == PlanEnrichment(c, m, files, ReadProvenance(c, files).value, op);
      assert PlanComplete(c, id, m, files, op).Throws?;
    } else {
      PlansRewrite(c, id, files, m, op);
      PlansArePlain(c, id, files, m, op);
    }
  }

  lemma EnrichmentMovesIff(c: Codec, files: Files, m: Manifest, p: Provenance, op: Op)
    requires Lawful(c) && Verified(c, files) && ReadManifest(c, files) == Some(m)
    requires MutableHash(c, m.contentHashes) == m.mutableStateHash
    requires op.AppendOutcomeEventWithEnrichment? && ReadProvenance(c, files) == Some(p) && p.RunLinked?
    requires ReadRecord(c, files).Some? && EventsOf(c, files).Some? && OUTCOMES in files
    ensures
      var plan := PlanEnrichment(c, m, files, p, op);
      var after := Apply(files, plan.replacements);
      && plan.Answers? && ReadManifest(c, after).Some?
      && (StateHash(c, after) != m.mutableStateHash <==> Noticed(c, files, plan))
  {
    hide Lawful, RecordBinds, ProvenanceBinds, IdentityHolds, ArtifactsHold, RecordText, MutableHash, EventsOf;
    var front := ReadRecord(c, files).value.0;
    var o := OutcomesAfter(c, files, op.event);
    EnrichmentFiles(c, files, m, p, op);
    EnrichVerifiedIff(c, files, m, front, p, op.prose, op.authorship, o);
    var m' := EnrichmentManifest(c, files, m, front, p, op);
    EnrichedDigests(c, m, RecordText(c, front, op.prose), c.provenanceText(EnrichedProvenance(p, op.authorship)), o,
                    EmbeddingInput(c, op.prose, front.anchors));
    LawfulParts(c);
    MutableHashIff(c, m.contentHashes, m'.contentHashes);
    DigestsApart(c, files[OUTCOMES], o);
    GrownText(files[OUTCOMES], c.eventText(op.event));
  }

  /** An enrichment touches the mutable state in the outcome log alone. */
  lemma EnrichedDigests(c: Codec, m: Manifest, a: string, b: string, o: string, e: string)
    ensures
      var m' := EnrichManifest(c, m, a, b, o, e);
      && m'.mutableStateHash == MutableHash(c, m'.contentHashes)
      && (SameMutableState(m.contentHashes, m'.contentHashes) <==> Lookup(m.contentHashes, OUTCOMES) == Some(c.sha(o)))
  {
    DistinctFixed();
  }

  // ----- an enrichment the hash does not notice -----

  /** The bundle asks for an enrichment, its log reads, and its manifest lists the log. */
  predicate Asks(c: Codec, files: Files) {
    && ReadProvenance(c, files).Some? && WantsEnrichment(ReadProvenance(c, files).value)
    && ReadManifest(c, files).Some? && OUTCOMES in ReadManifest(c, files).value.contentHashes
    && EventsOf(c, files).Some?
  }

  /** Logging an event leaves the bundle asking. */
  lemma StillAsks(c: Codec, id: string, files: Files, e: Event)
    requires Lawful(c) && Verified(c, files) && Asks(c, files)
    ensures
      var logged := Step(c, id, files, AppendOutcomeEvent(e));
      && Verified(c, logged) && Asks(c, logged) && DedupKey(e) in Keys(EventsOf(c, logged).value)
      && ReadRecord(c, logged) == ReadRecord(c, files)
  {
    hide Lawful, PlanOf, IdentityHolds, ProvenanceBinds, ArtifactsHold, EventsOf, Step;
    var m := ReadManifest(c, files).value;
    var op := AppendOutcomeEvent(e);
    StepVerifiedIff(c, id, files, op);
    OutcomeAppended(c, id, files, m, e);
    DistinctFixed();
    if DedupKey(e) !in Keys(EventsOf(c, files).value) { LoggedManifest(c, id, files, m, e); }
    var logged := Step(c, id, files, op);
    assert Lookup(logged, PROVENANCE) == Lookup(files, PROVENANCE) && Lookup(logged, RECORD) == Lookup(files, RECORD);
  }

  lemma LoggedManifest(c: Codec, id: string, files: Files, m: Manifest, e: Event)
    requires Lawful(c) && CompleteManifest(c, files) == Ok(Some(m)) && EventsOf(c, files).Some?
    requires DedupKey(e) !in Keys(EventsOf(c, files).value)
    ensures
      var logged := Step(c, id, files, AppendOutcomeEvent(e));
      && ReadManifest(c, logged).Some? && OUTCOMES in ReadManifest(c, logged).value.contentHashes
      && DedupKey(e) in Keys(EventsOf(c, files).value + [e])
  {
    hide ParseLog, RewriteManifest, Step, PlanOf, Keys;
    var text := files[OUTCOMES] + c.eventText(e) + "\n";
    KeysStayDistinct(EventsOf(c, files).value, e);
    assert ManifestLawful(c) by { LawfulParts(c); }
    hide Lawful;
    StepOfCommit(c, id, files, m, AppendOutcomeEvent(e), OUTCOMES, text);
    PathListed(c, m, OUTCOMES, text);
  }

  lemma PathListed(c: Codec, m: Manifest, path: string, text: string)
    ensures path in RewriteManifest(c, m, path, text).contentHashes
  {
  }

  /**
   * Once its event is logged, an enrichment rewrites the prose and keeps the mutable-state hash, by which
   * the index decides whether a bundle has to be projected again.
   */
  lemma EnrichmentUnseen(c: Codec, id: string, files: Files, e: Event, prose: Prose, authorship: string)
    requires Lawful(c) && Verified(c, files) && Asks(c, files) && SummarySafe(prose.summary)
    ensures
      var logged := Step(c, id, files, AppendOutcomeEvent(e));
      var op := AppendOutcomeEventWithEnrichment(e, prose, authorship);
      var after := Step(c, id, logged, op);
      && Verified(c, logged) && Verified(c, after)
      && PlanOf(c, id, logged, op).Answers? && PlanOf(c, id, logged, op).answer == Duplicate(true)
      && StateHash(c, after) == StateHash(c, logged)
      && ReadManifest(c, after).value.embeddingInput == EmbeddingInput(c, prose, ReadRecord(c, logged).value.0.anchors)
  {
    hide Lawful, Verified, Asks, SummarySafe, EventsOf, EmbeddingInput, Enriches;
    var logged := Step(c, id, files, AppendOutcomeEvent(e));
    StillAsks(c, id, files, e);
    hide Step;
    EnrichedAgain(c, id, logged, AppendOutcomeEventWithEnrichment(e, prose, authorship));
  }

  lemma EnrichedAgain(c: Codec, id: string, files: Files, op: Op)
    requires Lawful(c) && Verified(c, files) && Asks(c, files) && op.AppendOutcomeEventWithEnrichment?
    requires DedupKey(op.event) in Keys(EventsOf(c, files).value) && SummarySafe(op.prose.summary)
    ensures
      var after := Step(c, id, files, op);
      && Verified(c, after) && PlanOf(c, id, files, op).Answers? && PlanOf(c, id, files, op).answer == Duplicate(true)
      && StateHash(c, after) == StateHash(c, files)
      && ReadRecord(c, files).Some?
      && ReadManifest(c, after).value.embeddingInput == EmbeddingInput(c, op.prose, ReadRecord(c, files).value.0.anchors)
  {
    hide Lawful, IdentityHolds, ProvenanceBinds, ArtifactsHold, EventsOf, SummarySafe, RecordText, EmbeddingInput;
    var m, p := ReadManifest(c, files).value, ReadProvenance(c, files).value;
    RecordPresent(c, files, m);
    assert PlanOf(c, id, files, op) == PlanEnrichment(c, m, files, p, op);
    assert EventsOf(c, files).Some? && OUTCOMES in files by { assert HashesMatch(c, files, m); }
    StepVerifiedIff(c, id, files, op);
    StepMovesHashIff(c, id, files, op);
    var front := ReadRecord(c, files).value.0;
    EnrichmentFiles(c, files, m, p, op);
    EnrichVerifiedIff(c, files, m, front, p, op.prose, op.authorship, OutcomesAfter(c, files, op.event));
  }

  /** The provenance of a run whose record asks to be enriched. */
  function AskingRun(runId: string): Provenance {
    RunLinked(AgentObserved, runId, "t", 0, None, None, None, Some(true), None)
  }

  /** Such bundles exist: a specimen of that provenance, for every run and every stable anchor. */
  lemma AskingSpecimen(c: Codec, anchor: Anchor, runId: string)
    requires Lawful(c) && Stable(anchor)
    ensures
      var files := Specimens.SpecimenFiles(c, [anchor], AskingRun(runId), None);
      Verified(c, files) && Asks(c, files) && EventsOf(c, files) == Some([])
  {
    hide Lawful, Verified, Stable, Normalize, RenderWith, GatesOf, EventsOf, ReadRecord, ReadProvenance, ReadArtifacts;
    var input := Specimens.SpecimenInput([anchor], AskingRun(runId), None);
    Specimens.Specimen(c, [anchor], AskingRun(runId), None);
    Specimens.SpecimenRenders(c, [anchor], AskingRun(runId), None);
    RenderMeaning.RenderedCarries(c, input, OUTCOMES);
    RenderVerifiedIff(c, map[], input);
    assert RenderMeaning.PartAt(c, input, RenderWith(c, input, None).record, OUTCOMES, LogText(Map(c.eventText, [])));
  }
}
