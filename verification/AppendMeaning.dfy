/** When an append throws, finds nothing, is a repeat or goes through, and what an enrichment writes. */
module AppendMeaning {
  import opened Prelude
  import opened RecordMarkdown
  import opened Outcomes
  import opened BundleModel
  import opened BundleAppend
  import opened BundleLogs

  // ----- the answer -----

  /** Something the operation has to read, or the line it is given, is malformed. */
  predicate Malformed(c: Codec, id: string, files: Files, op: Op) {
    match op
    case AppendGateReceipt(line) =>
      line.candidateId != id || line.receiptDigest != GateDigest(c, line) || GatesOf(c, id, files) == None
    case AppendPromotionReceipt(candidateId, _, _, _) => candidateId != id || GatesOf(c, id, files) == None
    case AppendOutcomeEvent(_) => EventsOf(c, files) == None
    case WriteMeasurementBaseline(_) => false
    case AppendMeasurementObservation(_) => MEASUREMENTS in files && ParseMeasurements(c, files[MEASUREMENTS]) == None
    case AppendRelation(_) => RELATIONS !in files || c.parseRelations(files[RELATIONS]) == None
    case AppendOutcomeEventWithEnrichment(_, _, _) =>
      || ReadProvenance(c, files) == None || EventsOf(c, files) == None
      || (Asked(c, files) && ReadRecord(c, files) == None)
  }

  /** The provenance of the bundle asks for an enrichment. */
  predicate Asked(c: Codec, files: Files) {
    match ReadProvenance(c, files)
    case Some(RunLinked(_, _, _, _, _, _, _, needsEnrichment, _)) => needsEnrichment == Some(true)
    case _ => false
  }

  /** What the operation would add is there already, under the key of its kind. */
  predicate There(c: Codec, id: string, files: Files, op: Op)
    requires !Malformed(c, id, files, op)
  {
    match op
    case AppendGateReceipt(line) => exists g :: g in GatesOf(c, id, files).value && g.receiptDigest == line.receiptDigest
    case AppendPromotionReceipt(_, at, path, cited) =>
      var digest := GateDigest(c, PromotionReceipt(id, at, path, cited, ""));
      exists g :: g in GatesOf(c, id, files).value
        && (g.receiptDigest == digest || (g.PromotionReceipt? && g.promotionPath == path))
    case AppendOutcomeEvent(event) => Logged(c, files, event)
    case WriteMeasurementBaseline(_) => MEASUREMENTS in files
    case AppendMeasurementObservation(_) => false
    case AppendRelation(relation) =>
      exists r :: r in c.parseRelations(files[RELATIONS]).value && RelationKey(r) == RelationKey(relation)
    case AppendOutcomeEventWithEnrichment(event, _, _) => Logged(c, files, event)
  }

  predicate Logged(c: Codec, files: Files, event: Event)
    requires EventsOf(c, files).Some?
  {
    exists e :: e in EventsOf(c, files).value && e.token + ":" + e.job == event.token + ":" + event.job
  }

  /** A manifest that parses and is complete. */
  predicate Whole(c: Codec, files: Files) {
    MANIFEST in files && c.parseManifest(files[MANIFEST]).Some? && c.parseManifest(files[MANIFEST]).value.complete
  }

  /**
   * An append throws exactly when the manifest does not parse or something it needs is malformed; it finds nothing
   * exactly when there is no complete manifest, or an observation no baseline; it is a repeat exactly when what it
   * adds is there; and otherwise it goes through. It enriches exactly when it may and the bundle asks for it.
   */
  lemma AnswerIs(c: Codec, id: string, files: Files, op: Op)
    ensures
      var plan := PlanOf(c, id, files, op);
      if MANIFEST in files && c.parseManifest(files[MANIFEST]) == None then plan == Throws
      else if !Whole(c, files) then plan == Answers(NotFound, [])
      else if Malformed(c, id, files, op) then plan == Throws
      else if op.AppendMeasurementObservation? && MEASUREMENTS !in files then plan == Answers(NotFound, [])
      else
        && plan.Answers?
        && var enriched := op.AppendOutcomeEventWithEnrichment? && Asked(c, files);
        && plan.answer == (if There(c, id, files, op) then Duplicate(enriched) else Appended(enriched))
        && (There(c, id, files, op) && !enriched ==> plan.replacements == [])
  {
    hide GatesOf, EventsOf, ReadRecord, GateDigest, ParseMeasurements, RelationKey, CommitOne, EnrichmentManifest, OutcomesAfter;
    if Whole(c, files) && !Malformed(c, id, files, op) {
      match op {
        case AppendOutcomeEvent(event) => LoggedIff(c, files, event);
        case AppendOutcomeEventWithEnrichment(event, _, _) => LoggedIff(c, files, event);
        case _ =>
      }
    }
  }

  lemma LoggedIff(c: Codec, files: Files, event: Event)
    requires EventsOf(c, files).Some?
    ensures Logged(c, files, event) <==> DedupKey(event) in Keys(EventsOf(c, files).value)
  {
  }

  // ----- the enrichment -----

  /** The prose as it is read back. */
  function ReadBack(p: Prose): Prose { ParseProse(EmitProse(p)).GetOr(p) }

  /** What an enrichment leaves, given what was there. */
  ghost predicate EnrichedAs(c: Codec, files: Files, after: Files, op: Op, front: Frontmatter, p: Provenance, events: seq<Event>)
    requires op.AppendOutcomeEventWithEnrichment?
  {
    && p.RunLinked?
    && ReadRecord(c, after) == Some((front, ReadBack(op.prose)))
    && ReadProvenance(c, after) == Some(RunLinked(
         p.originClass, p.runId, p.testId, p.stepIndex, p.curationJobId, p.sourceBuildOrdinal,
         Some(op.authorship), Some(false), p.withheld))
    && EventsOf(c, after) == Some(
         if exists e :: e in events && e.token + ":" + e.job == op.event.token + ":" + op.event.job then events
         else events + [op.event])
    && (forall path :: path !in {RECORD, PROVENANCE, OUTCOMES, MANIFEST} ==> Lookup(after, path) == Lookup(files, path))
    && ReadManifest(c, after).Some?
    && ReadManifest(c, after).value.embeddingInput == EmbeddingInput(c, op.prose, front.anchors)
  }

  /**
   * An enrichment writes the new prose under the old frontmatter, settles the provenance and nothing else in it,
   * logs its event unless that is logged, and touches no other part but the manifest.
   */
  lemma EnrichmentWritten(
    c: Codec, id: string, files: Files, op: Op, front: Frontmatter, prose: Prose, p: Provenance, events: seq<Event>)
    requires Lawful(c) && Verified(c, files) && Enriches(c, id, files, op)
    requires ReadRecord(c, files) == Some((front, prose)) && ReadProvenance(c, files) == Some(p)
    requires EventsOf(c, files) == Some(events)
    ensures EnrichedAs(c, files, Step(c, id, files, op), op, front, p, events)
  {
    hide Lawful, PlanEnrichment, PlanComplete, EventsOf, Verified, ReadRecord, EnrichedAs;
    var m := ReadManifest(c, files).value;
    VerifiedParts(c, id, files, op, m);
    EnrichmentPlanned(c, id, files, m, op);
    EnrichmentWrites(c, files, m, front, p, events, op);
  }

  lemma EnrichmentWrites(
    c: Codec, files: Files, m: Manifest, front: Frontmatter, p: Provenance, events: seq<Event>, op: Op)
    requires Lawful(c) && ReadManifest(c, files) == Some(m) && Agrees(c, files, m)
    requires op.AppendOutcomeEventWithEnrichment? && ReadProvenance(c, files) == Some(p) && p.RunLinked?
    requires ReadRecord(c, files).Some? && ReadRecord(c, files).value.0 == front
    requires EventsOf(c, files) == Some(events) && OUTCOMES in files
    ensures EnrichedAs(c, files, Apply(files, PlanEnrichment(c, m, files, p, op).replacements), op, front, p, events)
  {
    hide Agrees, Lawful, EventsOf, ReadManifest, ReadRecord, EnrichedAs, PlanEnrichment;
    var o := OutcomesAfter(c, files, op.event);
    hide OutcomesAfter;
    EnrichmentFiles(c, files, m, p, op);
    var after := Apply(files, PlanEnrichment(c, m, files, p, op).replacements);
    EnrichmentDocuments(c, files, m, front, p, op, o, after);
    EnrichmentAssembled(c, files, after, op, front, p, events, o);
  }

  /** The four written documents. */
  ghost predicate DocumentsAre(c: Codec, files: Files, after: Files, op: Op, front: Frontmatter, p: Provenance, o: string)
    requires op.AppendOutcomeEventWithEnrichment? && p.RunLinked?
  {
    && Lookup(after, RECORD) == Some(RecordText(c, front, op.prose)) && Lookup(after, OUTCOMES) == Some(o)
    && ReadProvenance(c, after) == Some(EnrichedProvenance(p, op.authorship))
    && (forall path :: path !in {RECORD, PROVENANCE, OUTCOMES, MANIFEST} ==> Lookup(after, path) == Lookup(files, path))
    && ReadManifest(c, after).Some?
    && ReadManifest(c, after).value.embeddingInput == EmbeddingInput(c, op.prose, front.anchors)
  }

  lemma EnrichmentDocuments(
    c: Codec, files: Files, m: Manifest, front: Frontmatter, p: Provenance, op: Op, o: string, after: Files)
    requires Lawful(c) && ReadManifest(c, files) == Some(m) && Agrees(c, files, m)
    requires op.AppendOutcomeEventWithEnrichment? && ReadProvenance(c, files) == Some(p) && p.RunLinked?
    requires ReadRecord(c, files).Some? && ReadRecord(c, files).value.0 == front && EventsOf(c, files).Some?
    requires o == OutcomesAfter(c, files, op.event)
    requires after == Enriched(
      files, RecordText(c, front, op.prose), c.provenanceText(EnrichedProvenance(p, op.authorship)), o,
      c.manifestText(EnrichmentManifest(c, files, m, front, p, op)))
    ensures DocumentsAre(c, files, after, op, front, p, o)
  {
    hide Agrees, Lawful, EventsOf, ReadRecord, RecordText, OutcomesAfter, EmbeddingInput, EnrichManifest, Enriched, SummarySafe,
      ReadManifest, ReadProvenance, Verified, EnrichedProvenance;
    var a, b := RecordText(c, front, op.prose), c.provenanceText(EnrichedProvenance(p, op.authorship));
    EnrichVerifiedIff(c, files, m, front, p, op.prose, op.authorship, o);
    EnrichedLookups(files, a, b, o, c.manifestText(EnrichmentManifest(c, files, m, front, p, op)));
    EmbeddedAs(c, m, a, b, o, EmbeddingInput(c, op.prose, front.anchors));
  }

  lemma EnrichmentAssembled(
    c: Codec, files: Files, after: Files, op: Op, front: Frontmatter, p: Provenance, events: seq<Event>, o: string)
    requires Lawful(c) && op.AppendOutcomeEventWithEnrichment? && p.RunLinked?
    requires ReadRecord(c, files).Some? && ReadRecord(c, files).value.0 == front
    requires EventsOf(c, files) == Some(events) && OUTCOMES in files && o == OutcomesAfter(c, files, op.event)
    requires DocumentsAre(c, files, after, op, front, p, o)
    ensures EnrichedAs(c, files, after, op, front, p, events)
  {
    hide Lawful, ReadRecord, EventsOf, RecordText, OutcomesAfter, EmbeddingInput, ReadManifest, ReadProvenance, ReadBack, Lookup;
    RecordAfter(c, files, after, front, op.prose);
    EventsAfter(c, files, after, events, op.event);
  }

  lemma EmbeddedAs(c: Codec, m: Manifest, a: string, b: string, o: string, e: string)
    ensures EnrichManifest(c, m, a, b, o, e).embeddingInput == e
  {
  }

  lemma RecordAfter(c: Codec, files: Files, after: Files, front: Frontmatter, prose: Prose)
    requires Lawful(c) && ReadRecord(c, files).Some? && ReadRecord(c, files).value.0 == front
    requires Lookup(after, RECORD) == Some(RecordText(c, front, prose))
    ensures ReadRecord(c, after) == Some((front, ReadBack(prose)))
  {
    hide RecordText, ParseProse, EmitProse;
    FrontIsValid(c, files);
    RecordReadsBack(c, front, prose);
  }

  lemma EventsAfter(c: Codec, files: Files, after: Files, events: seq<Event>, event: Event)
    requires Lawful(c) && EventsOf(c, files) == Some(events) && OUTCOMES in files
    requires Lookup(after, OUTCOMES) == Some(OutcomesAfter(c, files, event))
    ensures EventsOf(c, after) == Some(
              if exists e :: e in events && e.token + ":" + e.job == event.token + ":" + event.job then events
              else events + [event])
  {
    hide ParseLog, OutcomesAfter;
    LoggedAfter(c, files, event);
    LoggedIff(c, files, event);
  }
}
