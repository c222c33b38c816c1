/**
 * Appending to a published bundle. Every operation reads the directory, then either throws, answers
 * without writing, or replaces some parts and the manifest, the manifest last.
 */
module BundleAppend {
  import opened Prelude
  import opened Lines
  import opened RecordMarkdown
  import opened Outcomes
  import opened BundleModel
  import opened BundleParts

  datatype Replacement = Replacement(relPath: string, text: string)

  function Apply(files: Files, replacements: seq<Replacement>): Files
    decreases replacements
  {
    if replacements == [] then files
    else Apply(files[replacements[0].relPath := replacements[0].text], replacements[1..])
  }

  datatype Op =
    | AppendGateReceipt(line: GateLine)
    | AppendPromotionReceipt(candidateId: string, producedAtOrdinal: nat, path: PromotionPath, cited: seq<string>)
    | AppendOutcomeEvent(event: Event)
    | WriteMeasurementBaseline(baseline: string)
    | AppendMeasurementObservation(observation: string)
    | AppendRelation(relation: Relation)
    | AppendOutcomeEventWithEnrichment(event: Event, prose: Prose, authorship: string)

  datatype Answer = NotFound | Appended(enriched: bool) | Duplicate(enriched: bool)

  datatype Plan = Throws | Answers(answer: Answer, replacements: seq<Replacement>)

  // ----- reading -----

  /** `completeManifest`: nothing when the file is absent or incomplete, a throw when it does not parse. */
  function CompleteManifest(c: Codec, files: Files): Result<Option<Manifest>, ()> {
    if MANIFEST !in files then Ok(None)
    else
      match c.parseManifest(files[MANIFEST])
      case None => Err(())
      case Some(m) => Ok(if m.complete then Some(m) else None)
  }

  function ParseAll<T(!new)>(parse: string -> Option<T>, lines: seq<string>): (r: Option<seq<T>>)
    ensures r.Some? ==> |r.value| == |lines| && forall i :: 0 <= i < |lines| ==> parse(lines[i]) == Some(r.value[i])
    ensures r.None? ==> exists i :: 0 <= i < |lines| && parse(lines[i]) == None
  {
    if lines == [] then Some([])
    else
      match parse(lines[0])
      case None => None
      case Some(first) =>
        match ParseAll(parse, lines[1..])
        case None =>
          assert forall i :: 0 <= i < |lines[1..]| ==> lines[1..][i] == lines[i + 1];
          None
        case Some(rest) => Some([first] + rest)
  }

  function ParseLog<T(!new)>(parse: string -> Option<T>, text: string): Option<seq<T>> {
    match LogLines(text)
    case Err(_) => None
    case Ok(lines) => ParseAll(parse, lines)
  }

  /** The outcome log, or nothing when it is missing, unterminated or has an unreadable line. */
  function EventsOf(c: Codec, files: Files): Option<seq<Event>> {
    if OUTCOMES in files then ParseLog(c.parseEvent, files[OUTCOMES]) else None
  }

  /** The line with its own digest left out, which is what the digest covers. */
  function Undigested(line: GateLine): GateLine {
    match line
    case GateReceipt(candidateId, at, detail, _) => GateReceipt(candidateId, at, detail, "")
    case PromotionReceipt(candidateId, at, path, cited, _) => PromotionReceipt(candidateId, at, path, cited, "")
  }

  function GateDigest(c: Codec, line: GateLine): string { c.sha(c.gateBody(Undigested(line))) }

  /** One line of the gate log: it must attest this bundle, carry its own digest and be canonical. */
  function ReadGateLine(c: Codec, id: string): string -> Option<GateLine> {
    (line: string) =>
      match c.parseGate(line)
      case None => None
      case Some(g) =>
        if g.candidateId == id && GateDigest(c, g) == g.receiptDigest && c.gateText(g) == line then Some(g) else None
  }

  /** The gate log: absence is an empty log, an empty file is malformed. */
  function GatesOf(c: Codec, id: string, files: Files): Option<seq<GateLine>> {
    if GATES !in files then Some([])
    else if files[GATES] == "" then None
    else ParseLog(ReadGateLine(c, id), files[GATES])
  }

  datatype Measurements = Measurements(baseline: string, observations: seq<string>)

  function ParseMeasurements(c: Codec, text: string): Option<Measurements> {
    if text == "" then None
    else
      match LogLines(text)
      case Err(_) => None
      case Ok(lines) =>
        if lines == [] then None
        else
          match c.parseBaseline(lines[0])
          case None => None
          case Some(baseline) =>
            match ParseAll(c.parseObservation, lines[1..])
            case None => None
            case Some(observations) => Some(Measurements(baseline, observations))
  }

  function TextAt(files: Files, path: string): string { if path in files then files[path] else "" }

  // ----- committing -----

  function RewriteManifest(c: Codec, m: Manifest, path: string, text: string): Manifest {
    var contentHashes := m.contentHashes[path := c.sha(text)];
    m.(contentHashes := contentHashes, mutableStateHash := MutableHash(c, contentHashes))
  }

  function CommitOne(c: Codec, m: Manifest, path: string, text: string): seq<Replacement> {
    [Replacement(path, text), Replacement(MANIFEST, c.manifestText(RewriteManifest(c, m, path, text)))]
  }

  function EnrichManifest(
    c: Codec, m: Manifest, recordText: string, provenanceText: string, outcomesText: string, embeddingInput: string)
    : Manifest
  {
    var contentHashes :=
      m.contentHashes[RECORD := c.sha(recordText)][PROVENANCE := c.sha(provenanceText)][OUTCOMES := c.sha(outcomesText)];
    m.(embeddingInput := embeddingInput,
       contentHashes := contentHashes,
       mutableStateHash := MutableHash(c, contentHashes))
  }

  // ----- planning -----

  function GateLineIn(existing: seq<GateLine>, line: GateLine): bool {
    exists g :: g in existing && g.receiptDigest == line.receiptDigest
  }

  function PromotionIn(existing: seq<GateLine>, line: GateLine): bool
    requires line.PromotionReceipt?
  {
    exists g :: g in existing &&
      (g.receiptDigest == line.receiptDigest || (g.PromotionReceipt? && g.promotionPath == line.promotionPath))
  }

  function StampedPromotion(c: Codec, op: Op): GateLine
    requires op.AppendPromotionReceipt?
  {
    var line := PromotionReceipt(op.candidateId, op.producedAtOrdinal, op.path, op.cited, "");
    line.(receiptDigest := GateDigest(c, line))
  }

  function PlanGateLine(c: Codec, m: Manifest, files: Files, line: GateLine): Plan {
    Answers(Appended(false), CommitOne(c, m, GATES, TextAt(files, GATES) + c.gateText(line) + "\n"))
  }

  function RelationKey(r: Relation): string { r.relationType + ":" + r.targetId + ":" + r.curationJobId }

  function PlanOutcome(c: Codec, m: Manifest, files: Files, event: Event): Plan {
    match EventsOf(c, files)
    case None => Throws
    case Some(existing) =>
      if DedupKey(event) in Keys(existing) then Answers(Duplicate(false), [])
      else Answers(Appended(false), CommitOne(c, m, OUTCOMES, files[OUTCOMES] + c.eventText(event) + "\n"))
  }

  /** The bundle still asks to be enriched. */
  predicate WantsEnrichment(p: Provenance) { p.RunLinked? && p.needsEnrichment == Some(true) }

  function EnrichedProvenance(p: Provenance, authorship: string): Provenance
    requires p.RunLinked?
  {
    p.(authorship := Some(authorship), needsEnrichment := Some(false))
  }

  function OutcomesAfter(c: Codec, files: Files, event: Event): string
    requires EventsOf(c, files).Some?
  {
    files[OUTCOMES] + (if DedupKey(event) in Keys(EventsOf(c, files).value) then "" else c.eventText(event) + "\n")
  }

  function EnrichmentManifest(c: Codec, files: Files, m: Manifest, front: Frontmatter, p: Provenance, op: Op): Manifest
    requires op.AppendOutcomeEventWithEnrichment? && p.RunLinked? && EventsOf(c, files).Some?
  {
    EnrichManifest(c, m, RecordText(c, front, op.prose), c.provenanceText(EnrichedProvenance(p, op.authorship)),
                   OutcomesAfter(c, files, op.event), EmbeddingInput(c, op.prose, front.anchors))
  }

  function PlanEnrichment(c: Codec, m: Manifest, files: Files, p: Provenance, op: Op): Plan
    requires op.AppendOutcomeEventWithEnrichment? && p.RunLinked?
  {
    match ReadRecord(c, files)
    case None => Throws
    case Some((front, _)) =>
      match EventsOf(c, files)
      case None => Throws
      case Some(existing) =>
        var duplicate := DedupKey(op.event) in Keys(existing);
        Answers(
          if duplicate then Duplicate(true) else Appended(true),
          [Replacement(RECORD, RecordText(c, front, op.prose)),
           Replacement(PROVENANCE, c.provenanceText(EnrichedProvenance(p, op.authorship)))]
          + (if duplicate then [] else [Replacement(OUTCOMES, OutcomesAfter(c, files, op.event))])
          + [Replacement(MANIFEST, c.manifestText(EnrichmentManifest(c, files, m, front, p, op)))])
  }

  function PlanComplete(c: Codec, id: string, m: Manifest, files: Files, op: Op): Plan {
    match op
    case AppendGateReceipt(line) =>
      if line.candidateId != id || GateDigest(c, line) != line.receiptDigest then Throws
      else
        (match GatesOf(c, id, files)
         case None => Throws
         case Some(existing) =>
           if GateLineIn(existing, line) then Answers(Duplicate(false), []) else PlanGateLine(c, m, files, line))
    case AppendPromotionReceipt(candidateId, _, _, _) =>
      if candidateId != id then Throws
      else
        (match GatesOf(c, id, files)
         case None => Throws
         case Some(existing) =>
           if PromotionIn(existing, StampedPromotion(c, op)) then Answers(Duplicate(false), [])
           else PlanGateLine(c, m, files, StampedPromotion(c, op)))
    case AppendOutcomeEvent(event) => PlanOutcome(c, m, files, event)
    case WriteMeasurementBaseline(baseline) =>
      if MEASUREMENTS in files then Answers(Duplicate(false), [])
      else Answers(Appended(false), CommitOne(c, m, MEASUREMENTS, c.baselineText(baseline) + "\n"))
    case AppendMeasurementObservation(observation) =>
      if MEASUREMENTS !in files then Answers(NotFound, [])
      else if ParseMeasurements(c, files[MEASUREMENTS]) == None then Throws
      else Answers(Appended(false),
                   CommitOne(c, m, MEASUREMENTS, files[MEASUREMENTS] + c.observationText(observation) + "\n"))
    case AppendRelation(relation) =>
      if RELATIONS !in files then Throws
      else
        (match c.parseRelations(files[RELATIONS])
         case None => Throws
         case Some(existing) =>
           if exists r :: r in existing && RelationKey(r) == RelationKey(relation) then Answers(Duplicate(false), [])
           else Answers(Appended(false), CommitOne(c, m, RELATIONS, c.relationsText(existing + [relation]))))
    case AppendOutcomeEventWithEnrichment(event, _, _) =>
      match ReadProvenance(c, files)
      case None => Throws
      case Some(p) =>
        if WantsEnrichment(p) then PlanEnrichment(c, m, files, p, op) else PlanOutcome(c, m, files, event)
  }

  function PlanOf(c: Codec, id: string, files: Files, op: Op): Plan {
    match CompleteManifest(c, files)
    case Err(_) => Throws
    case Ok(None) => Answers(NotFound, [])
    case Ok(Some(m)) => PlanComplete(c, id, m, files, op)
  }

  function Step(c: Codec, id: string, files: Files, op: Op): Files {
    match PlanOf(c, id, files, op)
    case Throws => files
    case Answers(_, replacements) => Apply(files, replacements)
  }

  function Stepper(c: Codec, id: string): (Files, Op) -> Files {
    (files: Files, op: Op) => Step(c, id, files, op)
  }

  function Run(c: Codec, id: string, files: Files, ops: seq<Op>): Files {
    RunSteps(Stepper(c, id), files, ops)
  }

  /** The operation rewrites the prose of this directory. */
  predicate Enriches(c: Codec, id: string, files: Files, op: Op) {
    && op.AppendOutcomeEventWithEnrichment?
    && PlanOf(c, id, files, op).Answers?
    && (PlanOf(c, id, files, op).answer == Appended(true) || PlanOf(c, id, files, op).answer == Duplicate(true))
  }

  // ----- one replaced part -----

  predicate AppendTarget(path: string) {
    path == GATES || path == MEASUREMENTS || path == OUTCOMES || path == RELATIONS
  }

  lemma ApplyOne(c: Codec, files: Files, m: Manifest, path: string, text: string)
    ensures Apply(files, CommitOne(c, m, path, text)) ==
            files[path := text][MANIFEST := c.manifestText(RewriteManifest(c, m, path, text))]
  {
    var r := CommitOne(c, m, path, text);
    assert Apply(files, r) == Apply(files[path := text], r[1..]);
    assert r[1..][1..] == [];
  }

  /** Replacing an append-only part keeps the hashes of the manifest true of the directory. */
  lemma RewrittenHashes(c: Codec, files: Files, m: Manifest, path: string, text: string, after: Files)
    requires HashesMatch(c, files, m) && path != MANIFEST && MANIFEST !in m.contentHashes
    requires forall p :: p != MANIFEST ==> Lookup(after, p) == (if p == path then Some(text) else Lookup(files, p))
    ensures
      var m' := RewriteManifest(c, m, path, text);
      HashesMatch(c, after, m') && ActualDigests(c, after, m') == m'.contentHashes
  {
    var m' := RewriteManifest(c, m, path, text);
    forall p | p in m'.contentHashes ensures p in after && c.sha(after[p]) == m'.contentHashes[p] {
      assert p != MANIFEST;
      assert Lookup(after, p) == (if p == path then Some(text) else Lookup(files, p));
    }
  }

  /** Artifacts are untouched by any replacement: their names are not replaceable. */
  lemma ArtifactsUntouched(c: Codec, files: Files, after: Files)
    requires PartsLawful(c) && ArtifactsHold(c, files)
    requires ReadArtifacts(c, after) == ReadArtifacts(c, files)
    requires forall p :: |p| >= 10 && p[9] == '/' ==> Lookup(after, p) == Lookup(files, p)
    ensures ArtifactsHold(c, after)
  {
    var index := ReadArtifacts(c, files).value;
    assert ValidArtifacts(index);
    forall k | 0 <= k < |index.artifacts|
      ensures Lookup(after, index.artifacts[k].relPath) == Lookup(files, index.artifacts[k].relPath)
    {
      assert index.artifacts[k] in index.artifacts;
      assert index.artifacts[k].relPath == "artifacts/" + index.artifacts[k].sha;
      assert index.artifacts[k].relPath[9] == "artifacts/"[9];
    }
  }

  lemma NamesAreNotArtifacts(path: string)
    requires AppendTarget(path) || path == MANIFEST || path == RECORD || path == PROVENANCE
    ensures !(|path| >= 10 && path[9] == '/')
    ensures path != ARTIFACTS_INDEX
    ensures AppendTarget(path) ==> path != MANIFEST && path != RECORD && path != PROVENANCE
  {
    DistinctFixed();
    assert OUTCOMES[9] == 'o' && PROVENANCE[9] == 'e' && RELATIONS[9] == '.' && MANIFEST[9] == 'j';
    assert MEASUREMENTS[9] == 'm' && GATES[9] == 'g' && |RECORD| == 9;
  }

  lemma OneReplaced(files: Files, path: string, text: string, manifestText: string, after: Files)
    requires AppendTarget(path)
    requires after == files[path := text][MANIFEST := manifestText]
    ensures forall p :: p != MANIFEST ==> Lookup(after, p) == (if p == path then Some(text) else Lookup(files, p))
    ensures Lookup(after, RECORD) == Lookup(files, RECORD) && Lookup(after, PROVENANCE) == Lookup(files, PROVENANCE)
    ensures Lookup(after, ARTIFACTS_INDEX) == Lookup(files, ARTIFACTS_INDEX)
    ensures forall p :: |p| >= 10 && p[9] == '/' ==> Lookup(after, p) == Lookup(files, p)
    ensures Lookup(after, MANIFEST) == Some(manifestText)
  {
    NamesAreNotArtifacts(path);
    NamesAreNotArtifacts(MANIFEST);
    DistinctFixed();
  }

  lemma BindingsKept(c: Codec, files: Files, after: Files, m: Manifest, m': Manifest)
    requires RecordBinds(c, files, m) && ProvenanceBinds(c, files, m)
    requires Lookup(after, RECORD) == Lookup(files, RECORD) && Lookup(after, PROVENANCE) == Lookup(files, PROVENANCE)
    requires m' == m.(contentHashes := m'.contentHashes, mutableStateHash := m'.mutableStateHash)
    ensures RecordBinds(c, after, m') && ProvenanceBinds(c, after, m')
  {
  }

  lemma IdentityKept(c: Codec, m: Manifest, m': Manifest)
    requires m'.id == m.id && m'.identityHash == m.identityHash && m'.identityCore == m.identityCore
    ensures IdentityHolds(c, m') == IdentityHolds(c, m)
  {
  }

  lemma AppendKeepsVerified(c: Codec, files: Files, path: string, text: string)
    requires ManifestLawful(c) && PartsLawful(c) && Verified(c, files) && AppendTarget(path)
    ensures
      var m := ReadManifest(c, files).value;
      var after := Apply(files, CommitOne(c, m, path, text));
      && Verified(c, after)
      && ReadManifest(c, after) == Some(RewriteManifest(c, m, path, text))
      && ReadRecord(c, after) == ReadRecord(c, files)
      && Lookup(after, path) == Some(text)
  {
    var m := ReadManifest(c, files).value;
    var m' := RewriteManifest(c, m, path, text);
    var after := Apply(files, CommitOne(c, m, path, text));
    ApplyOne(c, files, m, path, text);
    OneReplaced(files, path, text, c.manifestText(m'), after);
    NamesAreNotArtifacts(path);
    ManifestReadsBack(c, after, m');
    RewrittenHashes(c, files, m, path, text, after);
    BindingsKept(c, files, after, m, m');
    IdentityKept(c, m, m');
    ArtifactsUntouched(c, files, after);
  }

  // ----- enrichment -----

  /** The directory after an enrichment, whether or not its event was already there. */
  function Enriched(files: Files, recordText: string, provenanceText: string, outcomesText: string, manifestText: string): Files {
    files[RECORD := recordText][PROVENANCE := provenanceText][OUTCOMES := outcomesText][MANIFEST := manifestText]
  }

  lemma ApplyEnrichment(files: Files, a: string, b: string, o: string, t: string, duplicate: bool)
    requires OUTCOMES in files && (duplicate ==> o == files[OUTCOMES])
    ensures
      Apply(files, [Replacement(RECORD, a), Replacement(PROVENANCE, b)]
                   + (if duplicate then [] else [Replacement(OUTCOMES, o)]) + [Replacement(MANIFEST, t)])
      == Enriched(files, a, b, o, t)
  {
    DistinctFixed();
    var r := [Replacement(RECORD, a), Replacement(PROVENANCE, b)]
             + (if duplicate then [] else [Replacement(OUTCOMES, o)]) + [Replacement(MANIFEST, t)];
    var f1 := files[RECORD := a];
    var f2 := f1[PROVENANCE := b];
    assert Apply(files, r) == Apply(f1, r[1..]);
    assert Apply(f1, r[1..]) == Apply(f2, r[1..][1..]);
    if duplicate {
      assert r[1..][1..] == [Replacement(MANIFEST, t)];
      assert Apply(f2, [Replacement(MANIFEST, t)]) == Apply(f2[MANIFEST := t], [Replacement(MANIFEST, t)][1..]);
      assert f2[OUTCOMES := o] == f2;
    } else {
      assert r[1..][1..] == [Replacement(OUTCOMES, o), Replacement(MANIFEST, t)];
      var f3 := f2[OUTCOMES := o];
      assert Apply(f2, [Replacement(OUTCOMES, o), Replacement(MANIFEST, t)]) == Apply(f3, [Replacement(MANIFEST, t)]);
      assert Apply(f3, [Replacement(MANIFEST, t)]) == Apply(f3[MANIFEST := t], [Replacement(MANIFEST, t)][1..]);
    }
  }

  lemma EnrichedLookups(files: Files, a: string, b: string, o: string, t: string)
    ensures
      var after := Enriched(files, a, b, o, t);
      && Lookup(after, RECORD) == Some(a) && Lookup(after, PROVENANCE) == Some(b)
      && Lookup(after, OUTCOMES) == Some(o) && Lookup(after, MANIFEST) == Some(t)
      && Lookup(after, ARTIFACTS_INDEX) == Lookup(files, ARTIFACTS_INDEX)
      && (forall p :: p != RECORD && p != PROVENANCE && p != OUTCOMES && p != MANIFEST ==> Lookup(after, p) == Lookup(files, p))
      && (forall p :: |p| >= 10 && p[9] == '/' ==> Lookup(after, p) == Lookup(files, p))
  {
    DistinctFixed();
    NamesAreNotArtifacts(RECORD);
    NamesAreNotArtifacts(PROVENANCE);
    NamesAreNotArtifacts(OUTCOMES);
    NamesAreNotArtifacts(MANIFEST);
  }

  predicate HashesTrue(c: Codec, files: Files, hashes: map<string, string>) {
    forall p :: p in hashes ==> p in files && c.sha(files[p]) == hashes[p]
  }

  lemma HashUpdated(c: Codec, files: Files, hashes: map<string, string>, path: string, text: string)
    requires HashesTrue(c, files, hashes)
    ensures HashesTrue(c, files[path := text], hashes[path := c.sha(text)])
    ensures path !in hashes ==> HashesTrue(c, files[path := text], hashes)
  {
  }

  lemma EnrichedHashes(c: Codec, files: Files, m: Manifest, a: string, b: string, o: string, t: string, e: string)
    requires HashesMatch(c, files, m) && MANIFEST !in m.contentHashes
    ensures
      var m' := EnrichManifest(c, m, a, b, o, e);
      var after := Enriched(files, a, b, o, t);
      && HashesMatch(c, after, m') && ActualDigests(c, after, m') == m'.contentHashes
      && MANIFEST !in m'.contentHashes
  {
    DistinctFixed();
    var f1, h1 := files[RECORD := a], m.contentHashes[RECORD := c.sha(a)];
    var f2, h2 := f1[PROVENANCE := b], h1[PROVENANCE := c.sha(b)];
    var f3, h3 := f2[OUTCOMES := o], h2[OUTCOMES := c.sha(o)];
    HashUpdated(c, files, m.contentHashes, RECORD, a);
    HashUpdated(c, f1, h1, PROVENANCE, b);
    HashUpdated(c, f2, h2, OUTCOMES, o);
    HashUpdated(c, f3, h3, MANIFEST, t);
    MatchingDigests(c, f3[MANIFEST := t], EnrichManifest(c, m, a, b, o, e));
  }

  /** Re-emitting the same frontmatter with new prose binds exactly when the new summary is safe. */
  lemma EnrichedRecordIff(c: Codec, files: Files, after: Files, m: Manifest, m': Manifest, front: Frontmatter, prose: Prose)
    requires FrontLawful(c) && RecordBinds(c, files, m)
    requires ReadRecord(c, files).Some? && ReadRecord(c, files).value.0 == front
    requires Lookup(after, RECORD) == Some(RecordText(c, front, prose))
    requires m' == m.(embeddingInput := EmbeddingInput(c, prose, front.anchors),
                      contentHashes := m'.contentHashes, mutableStateHash := m'.mutableStateHash)
    ensures RecordBinds(c, after, m') <==> SummarySafe(prose.summary)
    ensures ReadRecord(c, after).Some? && ReadRecord(c, after).value.0 == front
  {
    FrontIsValid(c, files);
    RecordReadsBack(c, front, prose);
    EmbeddedProseStableIff(prose);
    EmbeddingInputIff(c, ParseProse(EmitProse(prose)).value, prose, front.anchors);
  }

  lemma FrontIsValid(c: Codec, files: Files)
    requires FrontLawful(c) && ReadRecord(c, files).Some?
    ensures ValidFront(ReadRecord(c, files).value.0)
  {
    match ParseText(files[RECORD])
    case Some((lines, prose)) => assert c.parseFront(lines).Some?;
  }

  lemma EnrichVerifiedIff(
    c: Codec, files: Files, m: Manifest, front: Frontmatter, p: Provenance, prose: Prose, authorship: string, o: string)
    requires Lawful(c) && ReadManifest(c, files) == Some(m) && Agrees(c, files, m)
    requires ReadRecord(c, files).Some? && ReadRecord(c, files).value.0 == front
    requires ReadProvenance(c, files) == Some(p) && p.RunLinked?
    ensures
      var a := RecordText(c, front, prose);
      var b := c.provenanceText(EnrichedProvenance(p, authorship));
      var m' := EnrichManifest(c, m, a, b, o, EmbeddingInput(c, prose, front.anchors));
      var after := Enriched(files, a, b, o, c.manifestText(m'));
      && ReadManifest(c, after) == Some(m')
      && (Verified(c, after) <==> SummarySafe(prose.summary))
      && ReadProvenance(c, after) == Some(EnrichedProvenance(p, authorship))
      && ReadRecord(c, after).Some? && ReadRecord(c, after).value.0 == front
  {
    hide RecordText, Enriched, SummarySafe;
    var a := RecordText(c, front, prose);
    var b := c.provenanceText(EnrichedProvenance(p, authorship));
    var m' := EnrichManifest(c, m, a, b, o, EmbeddingInput(c, prose, front.anchors));
    var t := c.manifestText(m');
    var after := Enriched(files, a, b, o, t);
    EnrichedLookups(files, a, b, o, t);
    ManifestParsed(c, files, m);
    EnrichedHashes(c, files, m, a, b, o, t, EmbeddingInput(c, prose, front.anchors));
    ManifestReadsBack(c, after, m');
    IdentityKept(c, m, m');
    EnrichedRecordIff(c, files, after, m, m', front, prose);
    ProvenanceReadsBack(c, after, EnrichedProvenance(p, authorship));
    ArtifactsUntouched(c, files, after);
  }

  lemma ManifestParsed(c: Codec, files: Files, m: Manifest)
    requires ManifestLawful(c) && ReadManifest(c, files) == Some(m)
    ensures ValidManifest(m)
  {
  }

  lemma ProvenanceReadsBack(c: Codec, files: Files, p: Provenance)
    requires PartsLawful(c) && Lookup(files, PROVENANCE) == Some(c.provenanceText(p))
    ensures ReadProvenance(c, files) == Some(p)
  {
  }

  // ----- every operation, every run -----

  /**
   * One operation on a verified bundle leaves a verified bundle, except that an enrichment does so
   * exactly when its summary is safe. Identity and frontmatter never change.
   */
  lemma StepVerifiedIff(c: Codec, id: string, files: Files, op: Op)
    requires Lawful(c) && Verified(c, files)
    ensures
      var after := Step(c, id, files, op);
      && (Verified(c, after) <==> (Enriches(c, id, files, op) ==> SummarySafe(op.prose.summary)))
      && SameIdentity(c, files, after)
  {
    var m := ReadManifest(c, files).value;
    assert PlanOf(c, id, files, op) == PlanComplete(c, id, m, files, op);
    if Enriches(c, id, files, op) {
      EnrichmentStep(c, id, files, m, op);
    } else {
      UnenrichedIsPlain(c, id, files, m, op);
      PlainStep(c, id, files, m, op);
    }
  }

  predicate SameManifestIdentity(m: Manifest, m': Manifest) {
    && m'.id == m.id && m'.identityHash == m.identityHash && m'.identityCore == m.identityCore
    && m'.createdAtOrdinal == m.createdAtOrdinal && m'.originClass == m.originClass
    && m'.evidenceIncomplete == m.evidenceIncomplete && m'.complete == m.complete
  }

  /** The immutable part of a bundle: identity in the manifest, frontmatter in the record. */
  predicate SameIdentity(c: Codec, files: Files, after: Files) {
    && ReadManifest(c, files).Some? && ReadManifest(c, after).Some?
    && SameManifestIdentity(ReadManifest(c, files).value, ReadManifest(c, after).value)
    && ReadRecord(c, files).Some? && ReadRecord(c, after).Some?
    && ReadRecord(c, files).value.0 == ReadRecord(c, after).value.0
  }

  lemma SameIdentityTransitive(c: Codec, a: Files, b: Files, d: Files)
    requires SameIdentity(c, a, b) && SameIdentity(c, b, d)
    ensures SameIdentity(c, a, d)
  {
  }

  /** A plan that writes nothing, or one append-only part and the manifest. */
  predicate PlainPlan(c: Codec, m: Manifest, plan: Plan) {
    match plan
    case Throws => true
    case Answers(answer, r) =>
      && answer != Appended(true) && answer != Duplicate(true)
      && (r == [] || (|r| == 2 && AppendTarget(r[0].relPath) && r == CommitOne(c, m, r[0].relPath, r[0].text)))
  }

  lemma CommitIsPlain(c: Codec, m: Manifest, path: string, text: string)
    requires AppendTarget(path)
    ensures PlainPlan(c, m, Answers(Appended(false), CommitOne(c, m, path, text)))
  {
  }

  lemma OutcomeIsPlain(c: Codec, m: Manifest, files: Files, event: Event)
    ensures PlainPlan(c, m, PlanOutcome(c, m, files, event))
  {
    CommitIsPlain(c, m, OUTCOMES, TextAt(files, OUTCOMES) + c.eventText(event) + "\n");
  }

  lemma GateIsPlain(c: Codec, m: Manifest, files: Files, line: GateLine)
    ensures PlainPlan(c, m, PlanGateLine(c, m, files, line))
  {
    CommitIsPlain(c, m, GATES, TextAt(files, GATES) + c.gateText(line) + "\n");
  }

  lemma PlansArePlain(c: Codec, id: string, files: Files, m: Manifest, op: Op)
    requires !(op.AppendOutcomeEventWithEnrichment? && ReadProvenance(c, files).Some?
               && WantsEnrichment(ReadProvenance(c, files).value))
    ensures PlainPlan(c, m, PlanComplete(c, id, m, files, op))
  {
    match op
    case AppendGateReceipt(line) => GateIsPlain(c, m, files, line);
    case AppendPromotionReceipt(_, _, _, _) => GateIsPlain(c, m, files, StampedPromotion(c, op));
    case AppendOutcomeEvent(event) => OutcomeIsPlain(c, m, files, event);
    case WriteMeasurementBaseline(baseline) => CommitIsPlain(c, m, MEASUREMENTS, c.baselineText(baseline) + "\n");
    case AppendMeasurementObservation(observation) =>
      CommitIsPlain(c, m, MEASUREMENTS, TextAt(files, MEASUREMENTS) + c.observationText(observation) + "\n");
    case AppendRelation(relation) =>
      if RELATIONS in files && c.parseRelations(files[RELATIONS]).Some? {
        CommitIsPlain(c, m, RELATIONS, c.relationsText(c.parseRelations(files[RELATIONS]).value + [relation]));
      }
    case AppendOutcomeEventWithEnrichment(event, _, _) => OutcomeIsPlain(c, m, files, event);
  }

  lemma PlainStep(c: Codec, id: string, files: Files, m: Manifest, op: Op)
    requires ManifestLawful(c) && PartsLawful(c) && Verified(c, files) && ReadManifest(c, files) == Some(m)
    requires PlanOf(c, id, files, op) == PlanComplete(c, id, m, files, op)
    requires PlainPlan(c, m, PlanComplete(c, id, m, files, op))
    ensures Verified(c, Step(c, id, files, op)) && SameIdentity(c, files, Step(c, id, files, op))
  {
    var plan := PlanComplete(c, id, m, files, op);
    if plan.Answers? && plan.replacements != [] {
      var path, text := plan.replacements[0].relPath, plan.replacements[0].text;
      CommittedStep(c, files, m, path, text);
    }
  }

  lemma CommittedStep(c: Codec, files: Files, m: Manifest, path: string, text: string)
    requires ManifestLawful(c) && PartsLawful(c) && Verified(c, files) && ReadManifest(c, files) == Some(m)
    requires AppendTarget(path)
    ensures
      var after := Apply(files, CommitOne(c, m, path, text));
      Verified(c, after) && SameIdentity(c, files, after)
  {
    AppendKeepsVerified(c, files, path, text);
    RecordPresent(c, files, m);
    assert SameManifestIdentity(m, RewriteManifest(c, m, path, text));
  }

  lemma RecordPresent(c: Codec, files: Files, m: Manifest)
    requires Verified(c, files) && ReadManifest(c, files) == Some(m)
    ensures ReadRecord(c, files).Some? && SameIdentity(c, files, files)
  {
  }

  lemma UnenrichedIsPlain(c: Codec, id: string, files: Files, m: Manifest, op: Op)
    requires PlanOf(c, id, files, op) == PlanComplete(c, id, m, files, op)
    requires !Enriches(c, id, files, op)
    ensures PlainPlan(c, m, PlanComplete(c, id, m, files, op))
  {
    if op.AppendOutcomeEventWithEnrichment? && ReadProvenance(c, files).Some?
       && WantsEnrichment(ReadProvenance(c, files).value) {
      assert PlanComplete(c, id, m, files, op) == PlanEnrichment(c, m, files, ReadProvenance(c, files).value, op);
      assert PlanComplete(c, id, m, files, op).Throws?;
    } else {
      PlansArePlain(c, id, files, m, op);
    }
  }

  lemma EnrichmentPlanned(c: Codec, id: string, files: Files, m: Manifest, op: Op)
    requires PlanOf(c, id, files, op) == PlanComplete(c, id, m, files, op)
    requires Enriches(c, id, files, op)
    ensures ReadProvenance(c, files).Some? && WantsEnrichment(ReadProvenance(c, files).value)
    ensures ReadRecord(c, files).Some? && EventsOf(c, files).Some? && OUTCOMES in files
    ensures PlanOf(c, id, files, op) == PlanEnrichment(c, m, files, ReadProvenance(c, files).value, op)
  {
    if ReadProvenance(c, files).Some? && !WantsEnrichment(ReadProvenance(c, files).value) {
      OutcomeIsPlain(c, m, files, op.event);
    }
  }

  lemma EnrichmentStep(c: Codec, id: string, files: Files, m: Manifest, op: Op)
    requires Lawful(c) && ReadManifest(c, files) == Some(m) && Agrees(c, files, m)
    requires PlanOf(c, id, files, op) == PlanComplete(c, id, m, files, op)
    requires Enriches(c, id, files, op)
    ensures
      var after := Step(c, id, files, op);
      && (Verified(c, after) <==> SummarySafe(op.prose.summary))
      && SameIdentity(c, files, after)
      && ReadProvenance(c, files).Some? && WantsEnrichment(ReadProvenance(c, files).value)
      && ReadProvenance(c, after) == Some(EnrichedProvenance(ReadProvenance(c, files).value, op.authorship))
  {
    EnrichmentPlanned(c, id, files, m, op);
    EnrichmentApplied(c, files, m, ReadProvenance(c, files).value, op);
  }

  lemma EnrichmentApplied(c: Codec, files: Files, m: Manifest, p: Provenance, op: Op)
    requires Lawful(c) && ReadManifest(c, files) == Some(m) && Agrees(c, files, m)
    requires op.AppendOutcomeEventWithEnrichment? && ReadProvenance(c, files) == Some(p) && p.RunLinked?
    requires ReadRecord(c, files).Some? && EventsOf(c, files).Some? && OUTCOMES in files
    ensures
      var after := Apply(files, PlanEnrichment(c, m, files, p, op).replacements);
      && (Verified(c, after) <==> SummarySafe(op.prose.summary))
      && SameIdentity(c, files, after)
      && ReadProvenance(c, after) == Some(EnrichedProvenance(p, op.authorship))
  {
    var front := ReadRecord(c, files).value.0;
    var o := OutcomesAfter(c, files, op.event);
    EnrichmentFiles(c, files, m, p, op);
    EnrichVerifiedIff(c, files, m, front, p, op.prose, op.authorship, o);
    assert SameManifestIdentity(m, EnrichmentManifest(c, files, m, front, p, op));
  }

  lemma EnrichmentFiles(c: Codec, files: Files, m: Manifest, p: Provenance, op: Op)
    requires op.AppendOutcomeEventWithEnrichment? && p.RunLinked?
    requires ReadRecord(c, files).Some? && EventsOf(c, files).Some?
    ensures
      var front := ReadRecord(c, files).value.0;
      && PlanEnrichment(c, m, files, p, op).Answers?
      && Apply(files, PlanEnrichment(c, m, files, p, op).replacements) ==
         Enriched(files, RecordText(c, front, op.prose), c.provenanceText(EnrichedProvenance(p, op.authorship)),
                  OutcomesAfter(c, files, op.event), c.manifestText(EnrichmentManifest(c, files, m, front, p, op)))
  {
    var front := ReadRecord(c, files).value.0;
    var duplicate := DedupKey(op.event) in Keys(EventsOf(c, files).value);
    var o := OutcomesAfter(c, files, op.event);
    assert duplicate ==> o == files[OUTCOMES];
    ApplyEnrichment(files, RecordText(c, front, op.prose), c.provenanceText(EnrichedProvenance(p, op.authorship)), o,
                    c.manifestText(EnrichmentManifest(c, files, m, front, p, op)), duplicate);
  }

  predicate SafeOp(op: Op) { op.AppendOutcomeEventWithEnrichment? ==> SummarySafe(op.prose.summary) }

  lemma SafeStep(c: Codec, id: string, start: Files, files: Files, op: Op)
    requires Lawful(c) && Verified(c, files) && SameIdentity(c, start, files) && SafeOp(op)
    ensures Verified(c, Step(c, id, files, op)) && SameIdentity(c, start, Step(c, id, files, op))
  {
    StepVerifiedIff(c, id, files, op);
    SameIdentityTransitive(c, start, files, Step(c, id, files, op));
  }

  /**
   * Whatever sequence of appends follows, a verified bundle stays verified and keeps its identity, as
   * long as no enrichment quotes the section separator in its summary.
   */
  lemma RunVerified(c: Codec, id: string, files: Files, ops: seq<Op>)
    requires Lawful(c) && Verified(c, files)
    requires forall op :: op in ops ==> SafeOp(op)
    ensures Verified(c, Run(c, id, files, ops)) && SameIdentity(c, files, Run(c, id, files, ops))
  {
    RecordPresent(c, files, ReadManifest(c, files).value);
    var inv := (f: Files) => Verified(c, f) && SameIdentity(c, files, f);
    var allowed := (op: Op) => SafeOp(op);
    forall f, op | inv(f) && allowed(op) ensures inv(Stepper(c, id)(f, op)) {
      SafeStep(c, id, files, f, op);
    }
    RunInvariant(Stepper(c, id), files, ops, inv, allowed);
  }
}
