/** Reading a bundle back: the loaded value, the trust folded from it, and why every reachable bundle loads. */
module BundleLoad {
  import opened Prelude
  import opened Lines
  import opened RecordMarkdown
  import opened Outcomes
  import opened BundleModel
  import opened BundleParts
  import opened BundleAppend
  import opened BundleLogs

  datatype LoadedBundle = LoadedBundle(
    manifest: Manifest,
    front: Frontmatter,
    prose: Prose,
    provenance: Provenance,
    relations: seq<Relation>,
    artifacts: ArtifactsIndex,
    events: seq<Event>,
    gates: seq<GateLine>)

  datatype LoadOutcome = NotFound | Incomplete | Invalid | Loaded(bundle: LoadedBundle)

  function ReadRelations(c: Codec, files: Files): Option<seq<Relation>> {
    if RELATIONS in files then c.parseRelations(files[RELATIONS]) else None
  }

  /** `loadBundle` on a directory that exists: every committed document must be readable. */
  function LoadBundle(c: Codec, files: Files): LoadOutcome {
    if MANIFEST !in files then LoadOutcome.NotFound
    else
      match c.parseManifest(files[MANIFEST])
      case None => Invalid
      case Some(m) =>
        if !m.complete then Incomplete
        else
          var gates := GatesOf(c, m.id, files);
          var record := ReadRecord(c, files);
          var provenance := ReadProvenance(c, files);
          var relations := ReadRelations(c, files);
          var artifacts := ReadArtifacts(c, files);
          var events := EventsOf(c, files);
          if gates == None || record == None || provenance == None || relations == None || artifacts == None || events == None then
            Invalid
          else
            Loaded(LoadedBundle(m, record.value.0, record.value.1, provenance.value, relations.value,
                                artifacts.value, events.value, gates.value))
  }

  /** `deriveBundleTrust`. */
  function TrustOf(b: LoadedBundle): TrustState {
    Trust(b.events, b.provenance.originClass, b.manifest.evidenceIncomplete, b.manifest.createdAtOrdinal)
  }

  /** `isServable`: the firewall between withdrawn knowledge and a reader. */
  predicate IsServable(t: TrustState) {
    (t.status.Active? || t.status.Candidate?) && t.closedAtOrdinal == None
  }

  // ----- every reachable bundle loads -----

  predicate Loads(c: Codec, files: Files) { LoadBundle(c, files).Loaded? }

  /** The rewritten text of one part still reads. */
  predicate PartReads(c: Codec, id: string, path: string, text: string) {
    if path == OUTCOMES then ParseLog(c.parseEvent, text).Some?
    else if path == GATES then text != "" && ParseLog(ReadGateLine(c, id), text).Some?
    else if path == RELATIONS then c.parseRelations(text).Some?
    else true
  }

  lemma CommitLoads(c: Codec, id: string, files: Files, m: Manifest, op: Op, path: string, text: string)
    requires ManifestLawful(c) && CompleteManifest(c, files) == Ok(Some(m)) && AppendTarget(path) && Loads(c, files)
    requires PlanComplete(c, id, m, files, op) == Answers(Appended(false), CommitOne(c, m, path, text))
    requires PartReads(c, m.id, path, text)
    ensures Loads(c, Step(c, id, files, op))
  {
    hide PlanComplete, Step, PartReads, ReadRecord, ReadProvenance, ReadArtifacts, EventsOf, ReadRelations, GatesOf;
    StepOfCommit(c, id, files, m, op, path, text);
    DistinctFixed();
    var after := Step(c, id, files, op);
    SameReads(c, files, after, m.id, path, text);
  }

  lemma SameReads(c: Codec, files: Files, after: Files, id: string, path: string, text: string)
    requires AppendTarget(path) && Lookup(after, path) == Some(text)
    requires forall p :: p != path && p != MANIFEST ==> Lookup(after, p) == Lookup(files, p)
    requires PartReads(c, id, path, text)
    ensures ReadRecord(c, after) == ReadRecord(c, files) && ReadProvenance(c, after) == ReadProvenance(c, files)
    ensures ReadArtifacts(c, after) == ReadArtifacts(c, files)
    ensures EventsOf(c, files).Some? ==> EventsOf(c, after).Some?
    ensures ReadRelations(c, files).Some? ==> ReadRelations(c, after).Some?
    ensures GatesOf(c, id, files).Some? ==> GatesOf(c, id, after).Some?
  {
    hide ParseLog, ReadGateLine, ParseRecord;
    DistinctFixed();
    NamesAreNotArtifacts(path);
    assert Lookup(after, RECORD) == Lookup(files, RECORD) && Lookup(after, PROVENANCE) == Lookup(files, PROVENANCE);
    assert Lookup(after, ARTIFACTS_INDEX) == Lookup(files, ARTIFACTS_INDEX);
    assert path != OUTCOMES ==> Lookup(after, OUTCOMES) == Lookup(files, OUTCOMES);
    assert path != RELATIONS ==> Lookup(after, RELATIONS) == Lookup(files, RELATIONS);
    assert path != GATES ==> Lookup(after, GATES) == Lookup(files, GATES);
  }

  lemma OutcomeLoads(c: Codec, id: string, files: Files, m: Manifest, op: Op, event: Event)
    requires Lawful(c) && CompleteManifest(c, files) == Ok(Some(m)) && Loads(c, files)
    requires PlanComplete(c, id, m, files, op) == PlanOutcome(c, m, files, event)
    requires DedupKey(event) !in Keys(EventsOf(c, files).value)
    ensures Loads(c, Step(c, id, files, op))
  {
    hide LoadBundle, PlanComplete, Step;
    Loadable(c, files, m);
    assert LinesLawful(c);
    LogAppend(c.parseEvent, files[OUTCOMES], c.eventText(event), event);
    DistinctFixed();
    CommitLoads(c, id, files, m, op, OUTCOMES, files[OUTCOMES] + c.eventText(event) + "\n");
  }

  lemma Loadable(c: Codec, files: Files, m: Manifest)
    requires CompleteManifest(c, files) == Ok(Some(m)) && Loads(c, files)
    ensures EventsOf(c, files).Some? && OUTCOMES in files && ReadRelations(c, files).Some? && GatesOf(c, m.id, files).Some?
    ensures ReadProvenance(c, files).Some? && ReadRecord(c, files).Some? && ReadArtifacts(c, files).Some?
    ensures ReadManifest(c, files) == Some(m)
  {
  }

  lemma GateLoads(c: Codec, files: Files, m: Manifest, op: Op, line: GateLine)
    requires Lawful(c) && CompleteManifest(c, files) == Ok(Some(m)) && Loads(c, files)
    requires PlanComplete(c, m.id, m, files, op) == PlanGateLine(c, m, files, line)
    requires line.candidateId == m.id && GateDigest(c, line) == line.receiptDigest
    ensures Loads(c, Step(c, m.id, files, op))
  {
    hide LoadBundle, PlanComplete, Step, GateDigest;
    Loadable(c, files, m);
    assert LinesLawful(c);
    GateLogAppend(c, m.id, files, line);
    DistinctFixed();
    CommitLoads(c, m.id, files, m, op, GATES, TextAt(files, GATES) + c.gateText(line) + "\n");
  }

  lemma RelationLoads(c: Codec, files: Files, m: Manifest, relation: Relation)
    requires Lawful(c) && CompleteManifest(c, files) == Ok(Some(m)) && Loads(c, files)
    ensures Loads(c, Step(c, m.id, files, AppendRelation(relation)))
  {
    hide LoadBundle, ParseLog, ReadGateLine, ParseRecord;
    Loadable(c, files, m);
    DistinctFixed();
    var existing := c.parseRelations(files[RELATIONS]).value;
    if !exists r :: r in existing && RelationKey(r) == RelationKey(relation) {
      CommitLoads(c, m.id, files, m, AppendRelation(relation), RELATIONS, c.relationsText(existing + [relation]));
    }
  }

  lemma MeasurementLoads(c: Codec, files: Files, m: Manifest, op: Op)
    requires Lawful(c) && CompleteManifest(c, files) == Ok(Some(m)) && Loads(c, files)
    requires op.WriteMeasurementBaseline? || op.AppendMeasurementObservation?
    ensures Loads(c, Step(c, m.id, files, op))
  {
    hide LoadBundle, ParseLog, ReadGateLine, ParseRecord, ParseMeasurements;
    DistinctFixed();
    var plan := PlanComplete(c, m.id, m, files, op);
    if plan.Answers? && plan.replacements != [] {
      CommitLoads(c, m.id, files, m, op, MEASUREMENTS, plan.replacements[0].text);
    }
  }

  /** The documents an enrichment leaves alone. */
  lemma EnrichedOthers(files: Files, a: string, b: string, o: string, t: string)
    ensures
      var after := Enriched(files, a, b, o, t);
      && Lookup(after, RELATIONS) == Lookup(files, RELATIONS) && Lookup(after, GATES) == Lookup(files, GATES)
      && Lookup(after, ARTIFACTS_INDEX) == Lookup(files, ARTIFACTS_INDEX)
  {
    DistinctFixed();
  }

  lemma OthersRead(c: Codec, files: Files, after: Files, id: string)
    requires Lookup(after, RELATIONS) == Lookup(files, RELATIONS) && Lookup(after, GATES) == Lookup(files, GATES)
    requires Lookup(after, ARTIFACTS_INDEX) == Lookup(files, ARTIFACTS_INDEX)
    ensures ReadRelations(c, after) == ReadRelations(c, files) && ReadArtifacts(c, after) == ReadArtifacts(c, files)
    ensures GatesOf(c, id, after) == GatesOf(c, id, files)
  {
    hide ParseLog, ReadGateLine;
  }

  lemma EnrichedReads(c: Codec, files: Files, a: string, b: string, o: string, t: string, id: string)
    ensures
      var after := Enriched(files, a, b, o, t);
      && ReadRelations(c, after) == ReadRelations(c, files) && ReadArtifacts(c, after) == ReadArtifacts(c, files)
      && GatesOf(c, id, after) == GatesOf(c, id, files)
      && ReadRecord(c, after) == ParseRecord(c, a) && ReadProvenance(c, after) == c.parseProvenance(b)
      && EventsOf(c, after) == ParseLog(c.parseEvent, o) && Lookup(after, MANIFEST) == Some(t)
  {
    hide ParseLog, ReadGateLine, ParseRecord, ReadRelations, ReadArtifacts, GatesOf;
    EnrichedOthers(files, a, b, o, t);
    OthersRead(c, files, Enriched(files, a, b, o, t), id);
    DistinctFixed();
  }

  lemma EnrichmentLoads(c: Codec, files: Files, m: Manifest, p: Provenance, op: Op)
    requires Lawful(c) && CompleteManifest(c, files) == Ok(Some(m)) && Loads(c, files)
    requires op.AppendOutcomeEventWithEnrichment? && ReadProvenance(c, files) == Some(p) && p.RunLinked?
    requires ReadRecord(c, files).Some? && EventsOf(c, files).Some?
    ensures Loads(c, Apply(files, PlanEnrichment(c, m, files, p, op).replacements))
  {
    hide ParseLog, ReadGateLine, PlanEnrichment, ParseRecord, RecordText, OutcomesAfter;
    var front := ReadRecord(c, files).value.0;
    var m' := EnrichmentManifest(c, files, m, front, p, op);
    Loadable(c, files, m);
    EnrichmentFiles(c, files, m, p, op);
    var after := Apply(files, PlanEnrichment(c, m, files, p, op).replacements);
    EnrichedReads(c, files, RecordText(c, front, op.prose), c.provenanceText(EnrichedProvenance(p, op.authorship)),
                  OutcomesAfter(c, files, op.event), c.manifestText(m'), m.id);
    LoggedAfter(c, files, op.event);
    FrontIsValid(c, files);
    RecordReadsBack(c, front, op.prose);
    ManifestParsed(c, files, m);
    EnrichmentKeepsManifest(c, files, m, front, p, op);
    ManifestReadsBack(c, after, m');
  }

  lemma EnrichmentKeepsManifest(c: Codec, files: Files, m: Manifest, front: Frontmatter, p: Provenance, op: Op)
    requires op.AppendOutcomeEventWithEnrichment? && p.RunLinked? && EventsOf(c, files).Some? && ValidManifest(m)
    ensures
      var m' := EnrichmentManifest(c, files, m, front, p, op);
      ValidManifest(m') && m'.complete == m.complete && m'.id == m.id
  {
    DistinctFixed();
  }

  /** Any operation leaves a loadable bundle loadable. */
  lemma StepLoads(c: Codec, files: Files, m: Manifest, op: Op)
    requires Lawful(c) && CompleteManifest(c, files) == Ok(Some(m)) && Loads(c, files)
    ensures Loads(c, Step(c, m.id, files, op))
  {
    hide LoadBundle, ParseLog, ReadGateLine, ParseRecord, GateDigest, ParseMeasurements, PlanEnrichment;
    Loadable(c, files, m);
    match op
    case AppendGateReceipt(line) =>
      if PlanComplete(c, m.id, m, files, op) == PlanGateLine(c, m, files, line) && line.candidateId == m.id
         && GateDigest(c, line) == line.receiptDigest {
        GateLoads(c, files, m, op, line);
      }
    case AppendPromotionReceipt(_, _, _, _) =>
      StampedDigest(c, op);
      if PlanComplete(c, m.id, m, files, op) == PlanGateLine(c, m, files, StampedPromotion(c, op))
         && op.candidateId == m.id {
        GateLoads(c, files, m, op, StampedPromotion(c, op));
      }
    case AppendOutcomeEvent(event) =>
      if DedupKey(event) !in Keys(EventsOf(c, files).value) { OutcomeLoads(c, m.id, files, m, op, event); }
    case WriteMeasurementBaseline(_) => MeasurementLoads(c, files, m, op);
    case AppendMeasurementObservation(_) => MeasurementLoads(c, files, m, op);
    case AppendRelation(relation) => RelationLoads(c, files, m, relation);
    case AppendOutcomeEventWithEnrichment(_, _, _) =>
      EnrichedOutcomeLoads(c, files, m, op);
  }

  lemma EnrichedOutcomeLoads(c: Codec, files: Files, m: Manifest, op: Op)
    requires Lawful(c) && CompleteManifest(c, files) == Ok(Some(m)) && Loads(c, files)
    requires op.AppendOutcomeEventWithEnrichment?
    ensures Loads(c, Step(c, m.id, files, op))
  {
    hide Lawful, LoadBundle, EventsOf, ReadRecord, ReadProvenance, PlanEnrichment;
    Loadable(c, files, m);
    var p := ReadProvenance(c, files).value;
    if WantsEnrichment(p) {
      EnrichmentLoads(c, files, m, p, op);
    } else if DedupKey(op.event) !in Keys(EventsOf(c, files).value) {
      OutcomeLoads(c, m.id, files, m, op, op.event);
    }
  }

  lemma {:induction false} ParseAllWritten<T(!new)>(parse: string -> Option<T>, write: T -> string, xs: seq<T>)
    requires forall x :: parse(write(x)) == Some(x)
    ensures ParseAll(parse, Map(write, xs)) == Some(xs)
  {
    if xs != [] {
      assert Map(write, xs)[1..] == Map(write, xs[1..]);
      ParseAllWritten(parse, write, xs[1..]);
      assert [xs[0]] + xs[1..] == xs;
    }
  }

  lemma InitialEventsRead(c: Codec, events: seq<Event>)
    requires LinesLawful(c)
    ensures ParseLog(c.parseEvent, LogText(EventLines(c, events))) == Some(events)
  {
    LogRoundTrip(EventLines(c, events));
    ParseAllWritten(c.parseEvent, c.eventText, events);
  }

  /** What the staged documents hold, and what they read back as. */
  predicate StagedTexts(c: Codec, input: RenderInput, record: Frontmatter, files: Files) {
    && Lookup(files, RECORD) == Some(RecordText(c, record, ProseOf(input)))
    && Lookup(files, PROVENANCE) == Some(c.provenanceText(input.provenance.(originClass := input.originClass)))
    && Lookup(files, RELATIONS) == Some(c.relationsText(input.relations))
    && Lookup(files, OUTCOMES) == Some(LogText(EventLines(c, input.initialEvents)))
    && Lookup(files, ARTIFACTS_INDEX) == Some(c.artifactsText(RenderArtifactIndex(input.copied, input.skipped)))
  }

  lemma StagedTextsHeld(c: Codec, input: RenderInput, record: Frontmatter, parts: map<string, string>, files: Files)
    requires HoldsFixed(c, input, record, parts)
    requires forall p :: p in parts ==> p in files && files[p] == parts[p]
    ensures StagedTexts(c, input, record, files)
  {
    hide RecordText, LogText, EventLines, RenderArtifactIndex;
    assert RECORD in parts && PROVENANCE in parts && RELATIONS in parts && OUTCOMES in parts && ARTIFACTS_INDEX in parts;
  }

  lemma StagedRecordReads(c: Codec, input: RenderInput, record: Frontmatter, files: Files)
    requires FrontLawful(c) && StagedTexts(c, input, record, files) && ValidFront(record)
    ensures ReadRecord(c, files).Some? && ReadRecord(c, files).value.0 == record
  {
    hide ParseRecord, RecordText, LogText, EventLines, RenderArtifactIndex;
    RecordReadsBack(c, record, ProseOf(input));
  }

  lemma StagedEventsRead(c: Codec, input: RenderInput, record: Frontmatter, files: Files)
    requires LinesLawful(c) && StagedTexts(c, input, record, files)
    ensures EventsOf(c, files) == Some(input.initialEvents)
  {
    hide ParseLog, RecordText, RenderArtifactIndex;
    InitialEventsRead(c, input.initialEvents);
  }

  lemma StagedPartsRead(c: Codec, input: RenderInput, record: Frontmatter, files: Files)
    requires PartsLawful(c) && StagedTexts(c, input, record, files)
    requires forall r :: r in input.copied ==> r.relPath == "artifacts/" + r.ref.sha
    ensures ReadProvenance(c, files) == Some(input.provenance.(originClass := input.originClass))
    ensures ReadRelations(c, files) == Some(input.relations)
    ensures ReadArtifacts(c, files) ==
            if RowsReadable(input.copied, input.skipped) then Some(RenderArtifactIndex(input.copied, input.skipped)) else None
  {
    hide RecordText, LogText, EventLines, RenderArtifactIndex, ValidArtifacts;
    IndexValidIff(input.copied, input.skipped);
  }

  /** A staged bundle reads back as the input it was rendered from, exactly when its artifact rows are readable. */
  lemma RenderedLoadsIff(c: Codec, artifacts: Files, input: RenderInput, subtype: Option<string>)
    requires Lawful(c) && input.draft.anchors != [] && SubtypeFits(input.draft.kind, subtype) && GATES !in artifacts
    requires forall r :: r in input.copied ==> r.relPath == "artifacts/" + r.ref.sha
    ensures
      var rendered := RenderWith(c, input, subtype);
      var files := StagedFiles(artifacts, rendered);
      && (Loads(c, files) <==> RowsReadable(input.copied, input.skipped))
      && (Loads(c, files) ==> ReadsAs(c, input, rendered, LoadBundle(c, files).bundle))
  {
    hide PartsMap, HashedParts, Loads, LoadBundle, ReadsAs, RowsReadable;
    var record := RecordOf(c, input, subtype);
    PartContents(c, input, record);
    var parts := HashedParts(c, input, record);
    var m := ManifestOf(c, input, subtype, record, parts);
    StagedLookup(artifacts, parts, c.manifestText(m));
    var files := StagedFiles(artifacts, RenderWith(c, input, subtype));
    ManifestReadsBack(c, files, m);
    StagedTextsHeld(c, input, record, PartsMap(parts), files);
    DistinctFixed();
    StagedLoads(c, input, RenderWith(c, input, subtype), record, files);
  }

  predicate ReadsAs(c: Codec, input: RenderInput, rendered: Rendered, b: LoadedBundle) {
    && b.manifest == rendered.manifest && b.front == rendered.record && b.events == input.initialEvents
    && b.relations == input.relations && b.gates == []
    && b.provenance == input.provenance.(originClass := input.originClass)
    && b.artifacts == RenderArtifactIndex(input.copied, input.skipped)
  }

  lemma StagedLoads(c: Codec, input: RenderInput, rendered: Rendered, record: Frontmatter, files: Files)
    requires Lawful(c) && StagedTexts(c, input, record, files) && ValidFront(record)
    requires rendered.record == record && rendered.manifest.complete && ReadManifest(c, files) == Some(rendered.manifest)
    requires GATES !in files && forall r :: r in input.copied ==> r.relPath == "artifacts/" + r.ref.sha
    ensures Loads(c, files) <==> RowsReadable(input.copied, input.skipped)
    ensures Loads(c, files) ==> ReadsAs(c, input, rendered, LoadBundle(c, files).bundle)
  {
    hide StagedTexts, ReadRecord, ReadProvenance, ReadRelations, ReadArtifacts, EventsOf, RowsReadable;
    StagedRecordReads(c, input, record, files);
    StagedEventsRead(c, input, record, files);
    StagedPartsRead(c, input, record, files);
  }

  // ----- runs -----

  predicate Healthy(c: Codec, id: string, files: Files) {
    Verified(c, files) && Loads(c, files) && ReadManifest(c, files).value.id == id
  }

  lemma StepHealthy(c: Codec, id: string, files: Files, op: Op)
    requires Lawful(c) && Healthy(c, id, files) && SafeOp(op)
    ensures Healthy(c, id, Step(c, id, files, op))
  {
    hide LoadBundle, Step;
    StepVerifiedIff(c, id, files, op);
    StepLoads(c, files, ReadManifest(c, files).value, op);
  }

  /** A bundle that verifies and loads does both after every run of safe operations. */
  lemma RunHealthy(c: Codec, id: string, files: Files, ops: seq<Op>)
    requires Lawful(c) && Healthy(c, id, files) && forall op :: op in ops ==> SafeOp(op)
    ensures Healthy(c, id, Run(c, id, files, ops))
  {
    hide Healthy, Step;
    var inv := (f: Files) => Healthy(c, id, f);
    var allowed := (op: Op) => SafeOp(op);
    forall f, op | inv(f) && allowed(op) ensures inv(Stepper(c, id)(f, op)) { StepHealthy(c, id, f, op); }
    RunInvariant(Stepper(c, id), files, ops, inv, allowed);
  }
}
