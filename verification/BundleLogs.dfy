/** What appending does to the logs: they grow by one line, keep their keys apart, and ignore repeats. */
module BundleLogs {
  import opened Prelude
  import opened Lines
  import opened Outcomes
  import opened BundleModel
  import opened BundleParts
  import opened BundleAppend

  lemma {:induction false} ParseAllAppend<T(!new)>(parse: string -> Option<T>, lines: seq<string>, line: string, x: T)
    requires ParseAll(parse, lines).Some? && parse(line) == Some(x)
    ensures ParseAll(parse, lines + [line]) == Some(ParseAll(parse, lines).value + [x])
  {
    if lines == [] {
      assert lines + [line] == [line] && [line][1..] == [];
      assert ParseAll(parse, [line]) == Some([x] + []);
      assert [x] + [] == [] + [x];
    } else {
      assert (lines + [line])[1..] == lines[1..] + [line];
      ParseAllAppend(parse, lines[1..], line, x);
      var first, rest := parse(lines[0]).value, ParseAll(parse, lines[1..]).value;
      assert [first] + (rest + [x]) == ([first] + rest) + [x];
    }
  }

  lemma LinesAppend(text: string, line: string)
    requires LogLines(text).Ok? && NoNewline(line)
    ensures LogLines(text + line + "\n") == Ok(LogLines(text).value + [line])
  {
    var lines := LogLines(text).value;
    LogLinesInverse(text);
    LogTextAppend(lines, line);
    forall l | l in lines + [line] ensures NoNewline(l) {}
    LogRoundTrip(lines + [line]);
  }

  /** Reading a log after one line was appended gives the old entries and the new one. */
  lemma LogAppend<T(!new)>(parse: string -> Option<T>, text: string, line: string, x: T)
    requires ParseLog(parse, text).Some? && NoNewline(line) && parse(line) == Some(x)
    ensures ParseLog(parse, text + line + "\n") == Some(ParseLog(parse, text).value + [x])
  {
    LinesAppend(text, line);
    ParseAllAppend(parse, LogLines(text).value, line, x);
  }

  // ----- keys -----

  /** Keys made of a token without a colon separate events exactly as their parts do. */
  lemma {:induction false} KeySeparates(t1: string, j1: string, t2: string, j2: string)
    requires ':' !in t1 && ':' !in t2
    ensures KeyText(t1, j1) == KeyText(t2, j2) <==> t1 == t2 && j1 == j2
    decreases |t1|
  {
    var k1, k2 := KeyText(t1, j1), KeyText(t2, j2);
    assert t1 == "" ==> k1[0] == ':' && k1[1..] == j1;
    assert t2 == "" ==> k2[0] == ':' && k2[1..] == j2;
    assert t1 != "" ==> k1[0] == t1[0] && t1[0] in t1 && k1[1..] == KeyText(t1[1..], j1) && t1 == [t1[0]] + t1[1..];
    assert t2 != "" ==> k2[0] == t2[0] && t2[0] in t2 && k2[1..] == KeyText(t2[1..], j2) && t2 == [t2[0]] + t2[1..];
    if t1 != "" && t2 != "" { KeySeparates(t1[1..], j1, t2[1..], j2); }
  }

  /** The relation types the schema enumerates. */
  const RELATION_TYPES: set<string> := {
    "supersedes", "superseded-by", "derived-from", "conflicts-with",
    "relates-to", "renamed-from", "equivalent-to", "proposed-supersession-of"
  }

  lemma TypesHaveNoColon(t: string)
    requires t in RELATION_TYPES
    ensures ':' !in t
  {
  }

  /** What a relation key is for: the same type, target and job. */
  predicate SameRelation(r: Relation, s: Relation) {
    r.relationType == s.relationType && r.targetId == s.targetId && r.curationJobId == s.curationJobId
  }

  lemma RelationKeyParts(r: Relation)
    ensures RelationKey(r) == KeyText(r.relationType, KeyText(r.targetId, r.curationJobId))
  {
    assert r.relationType + ":" + r.targetId + ":" + r.curationJobId
           == r.relationType + ":" + (r.targetId + ":" + r.curationJobId);
  }

  /** Between targets without a colon, relation keys are equal exactly when their parts are. */
  lemma RelationKeySeparates(r: Relation, s: Relation)
    requires r.relationType in RELATION_TYPES && s.relationType in RELATION_TYPES
    requires ':' !in r.targetId && ':' !in s.targetId
    ensures RelationKey(r) == RelationKey(s) <==> SameRelation(r, s)
  {
    hide KeyText, RelationKey;
    TypesHaveNoColon(r.relationType);
    TypesHaveNoColon(s.relationType);
    RelationKeyParts(r);
    RelationKeyParts(s);
    KeySeparates(r.relationType, KeyText(r.targetId, r.curationJobId), s.relationType, KeyText(s.targetId, s.curationJobId));
    KeySeparates(r.targetId, r.curationJobId, s.targetId, s.curationJobId);
  }

  /** No other relation of an enumerated type has this relation's key. */
  ghost predicate KeyIdentifies(r: Relation) {
    forall s: Relation :: s.relationType in RELATION_TYPES && RelationKey(s) == RelationKey(r) ==> SameRelation(r, s)
  }

  /** A key identifies its relation exactly when neither the target nor the job contains a colon. */
  lemma KeyIdentifiesIff(r: Relation)
    requires r.relationType in RELATION_TYPES
    ensures KeyIdentifies(r) <==> ':' !in r.targetId && ':' !in r.curationJobId
  {
    hide RelationKey, KeyText;
    if ':' !in r.targetId && ':' !in r.curationJobId {
      forall s: Relation | s.relationType in RELATION_TYPES && RelationKey(s) == RelationKey(r) ensures SameRelation(r, s) {
        PlainKeyOwner(r, s);
      }
    } else {
      var s := Confusable(r);
      assert s.relationType in RELATION_TYPES && RelationKey(s) == RelationKey(r) && !SameRelation(r, s);
    }
  }

  lemma PlainKeyOwner(r: Relation, s: Relation)
    requires r.relationType in RELATION_TYPES && s.relationType in RELATION_TYPES && RelationKey(s) == RelationKey(r)
    requires ':' !in r.targetId && ':' !in r.curationJobId
    ensures SameRelation(r, s)
  {
    hide RelationKey;
    TypesHaveNoColon(r.relationType);
    TypesHaveNoColon(s.relationType);
    RelationKeyParts(r);
    RelationKeyParts(s);
    KeySeparates(r.relationType, KeyText(r.targetId, r.curationJobId), s.relationType, KeyText(s.targetId, s.curationJobId));
    OneColon(r.targetId, r.curationJobId, s.targetId, s.curationJobId);
    KeySeparates(r.targetId, r.curationJobId, s.targetId, s.curationJobId);
  }

  /** A key with one colon can only be cut there. */
  lemma OneColon(t1: string, j1: string, t2: string, j2: string)
    requires ':' !in t1 && ':' !in j1 && KeyText(t1, j1) == KeyText(t2, j2)
    ensures ':' !in t2
  {
    var k := KeyText(t1, j1);
    forall i | 0 <= i < |k| ensures k[i] == ':' <==> i == |t1| {
      assert k[i] == (if i < |t1| then t1[i] else if i == |t1| then ':' else j1[i - |t1| - 1]);
    }
    assert k[|t2|] == KeyText(t2, j2)[|t2|] == ':';
    forall i | 0 <= i < |t2| ensures t2[i] != ':' { assert t2[i] == KeyText(t2, j2)[i] == k[i]; }
  }

  /** Another relation with the same key: the text after the type is cut at another colon. */
  lemma Confusable(r: Relation) returns (s: Relation)
    requires ':' in r.targetId || ':' in r.curationJobId
    ensures s.relationType == r.relationType && RelationKey(s) == RelationKey(r) && s.targetId != r.targetId
  {
    var t, j := r.targetId, r.curationJobId;
    if ':' in t {
      var i :| 0 <= i < |t| && t[i] == ':';
      s := r.(targetId := t[..i], curationJobId := t[i + 1..] + ":" + j);
      assert t == t[..i] + ":" + t[i + 1..];
      assert t + ":" + j == t[..i] + ":" + (t[i + 1..] + ":" + j);
    } else {
      var i :| 0 <= i < |j| && j[i] == ':';
      s := r.(targetId := t + ":" + j[..i], curationJobId := j[i + 1..]);
      assert j == j[..i] + ":" + j[i + 1..];
      assert t + ":" + j == (t + ":" + j[..i]) + ":" + j[i + 1..];
    }
    RelationKeyParts(r);
    RelationKeyParts(s);
  }

  /** So a relation can be refused as a duplicate of another: any relation whose key does not identify it. */
  lemma RelationLost(c: Codec, id: string, files: Files, m: Manifest, r: Relation) returns (s: Relation)
    requires Lawful(c) && CompleteManifest(c, files) == Ok(Some(m)) && RELATIONS in files
    requires c.parseRelations(files[RELATIONS]).Some? && r in c.parseRelations(files[RELATIONS]).value
    requires ':' in r.targetId || ':' in r.curationJobId
    ensures s.relationType == r.relationType && !SameRelation(r, s)
    ensures PlanOf(c, id, files, AppendRelation(s)) == Answers(Duplicate(false), [])
  {
    hide RelationKey, Lawful;
    s := Confusable(r);
  }

  /** The shortest such pair of an enumerated type. */
  lemma RelationKeyAmbiguous()
    ensures
      var r := Relation("relates-to", "a:b", 0, "c");
      var s := Relation("relates-to", "a", 0, "b:c");
      r != s && RelationKey(r) == RelationKey(s)
  {
    assert RelationKey(Relation("relates-to", "a:b", 0, "c")) == "relates-to:a:b:c";
    assert RelationKey(Relation("relates-to", "a", 0, "b:c")) == "relates-to:a:b:c";
  }

  // ----- outcome log -----

  lemma StepOfCommit(c: Codec, id: string, files: Files, m: Manifest, op: Op, path: string, text: string)
    requires ManifestLawful(c) && CompleteManifest(c, files) == Ok(Some(m)) && AppendTarget(path)
    requires PlanComplete(c, id, m, files, op) == Answers(Appended(false), CommitOne(c, m, path, text))
    ensures
      var after := Step(c, id, files, op);
      && Lookup(after, path) == Some(text)
      && (forall p :: p != path && p != MANIFEST ==> Lookup(after, p) == Lookup(files, p))
      && CompleteManifest(c, after) == Ok(Some(RewriteManifest(c, m, path, text)))
  {
    var m' := RewriteManifest(c, m, path, text);
    assert Step(c, id, files, op) == Apply(files, CommitOne(c, m, path, text));
    ApplyOne(c, files, m, path, text);
    NamesAreNotArtifacts(path);
    assert ReadManifest(c, files) == Some(m);
    assert ValidManifest(m');
    ManifestReadsBack(c, Step(c, id, files, op), m');
  }

  /** Appending an outcome either finds its key in the log and writes nothing, or adds one line at the end. */
  lemma OutcomeAppended(c: Codec, id: string, files: Files, m: Manifest, e: Event)
    requires Lawful(c) && CompleteManifest(c, files) == Ok(Some(m)) && EventsOf(c, files).Some?
    ensures
      var old_ := EventsOf(c, files).value;
      var op := AppendOutcomeEvent(e);
      var after := Step(c, id, files, op);
      if DedupKey(e) in Keys(old_) then
        PlanOf(c, id, files, op) == Answers(Duplicate(false), []) && after == files
      else
        && PlanOf(c, id, files, op).Answers? && PlanOf(c, id, files, op).answer == Appended(false)
        && Lookup(after, OUTCOMES) == Some(files[OUTCOMES] + c.eventText(e) + "\n")
        && EventsOf(c, after) == Some(old_ + [e])
        && (DistinctKeys(old_) ==> DistinctKeys(old_ + [e]))
        && (forall p :: p != OUTCOMES && p != MANIFEST ==> Lookup(after, p) == Lookup(files, p))
        && PlanOf(c, id, after, op) == Answers(Duplicate(false), [])
  {
    hide ParseLog, CompleteManifest, DistinctKeys, RewriteManifest;
    var existing := EventsOf(c, files).value;
    var op := AppendOutcomeEvent(e);
    if DedupKey(e) !in Keys(existing) {
      var text := files[OUTCOMES] + c.eventText(e) + "\n";
      StepOfCommit(c, id, files, m, op, OUTCOMES, text);
      assert LinesLawful(c);
      LogAppend(c.parseEvent, files[OUTCOMES], c.eventText(e), e);
      KeysStayDistinct(existing, e);
    }
  }

  lemma KeysStayDistinct(existing: seq<Event>, e: Event)
    requires DedupKey(e) !in Keys(existing)
    ensures DistinctKeys(existing) ==> DistinctKeys(existing + [e])
    ensures DedupKey(e) in Keys(existing + [e])
  {
    forall x | x in existing ensures DedupKey(x) != DedupKey(e) {}
    assert e in existing + [e];
  }

  // ----- gate log -----

  ghost predicate DistinctDigests(lines: seq<GateLine>) {
    forall i, j :: 0 <= i < j < |lines| ==> lines[i].receiptDigest != lines[j].receiptDigest
  }

  ghost predicate OnePromotionPerPath(lines: seq<GateLine>) {
    forall i, j :: 0 <= i < j < |lines| && lines[i].PromotionReceipt? && lines[j].PromotionReceipt? ==>
      lines[i].promotionPath != lines[j].promotionPath
  }

  ghost predicate GateLogSound(lines: seq<GateLine>) { DistinctDigests(lines) && OnePromotionPerPath(lines) }

  lemma GateLineReads(c: Codec, id: string, line: GateLine)
    requires LinesLawful(c) && line.candidateId == id && GateDigest(c, line) == line.receiptDigest
    ensures ReadGateLine(c, id)(c.gateText(line)) == Some(line) && NoNewline(c.gateText(line))
  {
  }

  lemma GateLogAppend(c: Codec, id: string, files: Files, line: GateLine)
    requires LinesLawful(c) && GatesOf(c, id, files).Some?
    requires line.candidateId == id && GateDigest(c, line) == line.receiptDigest
    ensures
      var text := TextAt(files, GATES) + c.gateText(line) + "\n";
      text != "" && ParseLog(ReadGateLine(c, id), text) == Some(GatesOf(c, id, files).value + [line])
  {
    GateLineReads(c, id, line);
    LogAppend(ReadGateLine(c, id), TextAt(files, GATES), c.gateText(line), line);
  }

  lemma SoundLogGrows(existing: seq<GateLine>, line: GateLine)
    requires GateLogSound(existing) && !GateLineIn(existing, line)
    requires line.PromotionReceipt? ==> !PromotionIn(existing, line)
    ensures GateLogSound(existing + [line])
  {
    forall i | 0 <= i < |existing|
      ensures existing[i].receiptDigest != line.receiptDigest
      ensures existing[i].PromotionReceipt? && line.PromotionReceipt? ==> existing[i].promotionPath != line.promotionPath
    {
      assert existing[i] in existing;
    }
  }

  lemma StampedDigest(c: Codec, op: Op)
    requires op.AppendPromotionReceipt?
    ensures GateDigest(c, StampedPromotion(c, op)) == StampedPromotion(c, op).receiptDigest
    ensures StampedPromotion(c, op).candidateId == op.candidateId
    ensures StampedPromotion(c, op).PromotionReceipt? && StampedPromotion(c, op).promotionPath == op.path
  {
    var line := PromotionReceipt(op.candidateId, op.producedAtOrdinal, op.path, op.cited, "");
    assert Undigested(StampedPromotion(c, op)) == line;
  }

  /** The line a gate operation would add. */
  function GateOpLine(c: Codec, op: Op): GateLine
    requires op.AppendGateReceipt? || op.AppendPromotionReceipt?
  {
    if op.AppendGateReceipt? then op.line else StampedPromotion(c, op)
  }

  /** The gate operation is refused as a repeat. */
  predicate GateRefused(c: Codec, existing: seq<GateLine>, op: Op)
    requires op.AppendGateReceipt? || op.AppendPromotionReceipt?
  {
    if op.AppendGateReceipt? then GateLineIn(existing, op.line) else PromotionIn(existing, StampedPromotion(c, op))
  }

  /**
   * A gate operation that attests this bundle writes nothing when its digest (or, for a promotion, its
   * path) is already logged, and otherwise adds exactly its line, keeping digests apart and promotions
   * to one per path.
   */
  lemma GateAppended(c: Codec, id: string, files: Files, m: Manifest, op: Op)
    requires Lawful(c) && CompleteManifest(c, files) == Ok(Some(m)) && GatesOf(c, id, files).Some?
    requires op.AppendPromotionReceipt? || (op.AppendGateReceipt? && op.line.GateReceipt?)
    requires GateOpLine(c, op).candidateId == id
    requires GateDigest(c, GateOpLine(c, op)) == GateOpLine(c, op).receiptDigest
    ensures
      var existing := GatesOf(c, id, files).value;
      var after := Step(c, id, files, op);
      if GateRefused(c, existing, op) then
        PlanOf(c, id, files, op) == Answers(Duplicate(false), []) && after == files
      else
        && PlanOf(c, id, files, op).Answers? && PlanOf(c, id, files, op).answer == Appended(false)
        && Lookup(after, GATES) == Some(TextAt(files, GATES) + c.gateText(GateOpLine(c, op)) + "\n")
        && GatesOf(c, id, after) == Some(existing + [GateOpLine(c, op)])
        && (GateLogSound(existing) ==> GateLogSound(existing + [GateOpLine(c, op)]))
        && (forall p :: p != GATES && p != MANIFEST ==> Lookup(after, p) == Lookup(files, p))
        && PlanOf(c, id, after, op) == Answers(Duplicate(false), [])
  {
    var existing := GatesOf(c, id, files).value;
    var line := GateOpLine(c, op);
    if op.AppendPromotionReceipt? { StampedDigest(c, op); }
    if !GateRefused(c, existing, op) {
      var text := TextAt(files, GATES) + c.gateText(line) + "\n";
      assert PlanComplete(c, id, m, files, op) == PlanGateLine(c, m, files, line);
      StepOfCommit(c, id, files, m, op, GATES, text);
      assert LinesLawful(c);
      GateLogAppend(c, id, files, line);
      if GateLogSound(existing) { SoundLogGrows(existing, line); }
      assert line in existing + [line];
    }
  }

  // ----- enrichment happens once -----

  lemma ProvenanceOutlives(c: Codec, files: Files, m: Manifest, path: string, text: string)
    requires AppendTarget(path)
    ensures ReadProvenance(c, Apply(files, CommitOne(c, m, path, text))) == ReadProvenance(c, files)
  {
    hide Apply, CommitOne, RewriteManifest, AppendTarget;
    ApplyOne(c, files, m, path, text);
    OneReplaced(files, path, text, c.manifestText(RewriteManifest(c, m, path, text)), Apply(files, CommitOne(c, m, path, text)));
  }

  predicate Settled(c: Codec, files: Files) {
    ReadProvenance(c, files).Some? && !WantsEnrichment(ReadProvenance(c, files).value)
  }

  lemma SettledStays(c: Codec, id: string, files: Files, op: Op)
    requires Settled(c, files)
    ensures !Enriches(c, id, files, op)
    ensures ReadProvenance(c, Step(c, id, files, op)) == ReadProvenance(c, files)
  {
    match CompleteManifest(c, files)
    case Err(_) =>
    case Ok(None) =>
    case Ok(Some(m)) =>
      PlansArePlain(c, id, files, m, op);
      var plan := PlanComplete(c, id, m, files, op);
      if plan.Answers? && plan.replacements != [] {
        ProvenanceOutlives(c, files, m, plan.replacements[0].relPath, plan.replacements[0].text);
      }
  }

  /** An enrichment settles the bundle, and a settled bundle is never enriched again in any run. */
  lemma EnrichedOnce(c: Codec, id: string, files: Files, op: Op, later: seq<Op>, next: Op)
    requires Lawful(c) && Verified(c, files) && Enriches(c, id, files, op)
    ensures !Enriches(c, id, Run(c, id, Step(c, id, files, op), later), next)
  {
    var m := ReadManifest(c, files).value;
    EnrichmentStep(c, id, files, m, op);
    var after := Step(c, id, files, op);
    var inv := (f: Files) => Settled(c, f);
    forall f, o | inv(f) ensures inv(Stepper(c, id)(f, o)) { SettledStays(c, id, f, o); }
    RunInvariant(Stepper(c, id), after, later, inv, (o: Op) => true);
    SettledStays(c, id, Run(c, id, after, later), next);
  }

  // ----- repeating an operation -----

  lemma RelationRepeat(c: Codec, id: string, files: Files, m: Manifest, relation: Relation)
    requires Lawful(c) && CompleteManifest(c, files) == Ok(Some(m))
    requires RELATIONS in files && c.parseRelations(files[RELATIONS]).Some?
    ensures
      var op := AppendRelation(relation);
      var existing := c.parseRelations(files[RELATIONS]).value;
      var after := Step(c, id, files, op);
      if exists r :: r in existing && RelationKey(r) == RelationKey(relation) then after == files
      else
        && RELATIONS in after && c.parseRelations(after[RELATIONS]) == Some(existing + [relation])
        && PlanOf(c, id, after, op) == Answers(Duplicate(false), [])
  {
    var op := AppendRelation(relation);
    var existing := c.parseRelations(files[RELATIONS]).value;
    if !exists r :: r in existing && RelationKey(r) == RelationKey(relation) {
      StepOfCommit(c, id, files, m, op, RELATIONS, c.relationsText(existing + [relation]));
      assert relation in existing + [relation];
    }
  }

  lemma BaselineRepeat(c: Codec, id: string, files: Files, m: Manifest, baseline: string)
    requires Lawful(c) && CompleteManifest(c, files) == Ok(Some(m))
    ensures
      var op := WriteMeasurementBaseline(baseline);
      var after := Step(c, id, files, op);
      && PlanOf(c, id, after, op) == Answers(Duplicate(false), [])
      && (if MEASUREMENTS in files then after == files
          else MEASUREMENTS in after && ParseMeasurements(c, after[MEASUREMENTS]) == Some(Measurements(baseline, [])))
  {
    var op := WriteMeasurementBaseline(baseline);
    if MEASUREMENTS !in files {
      var text := c.baselineText(baseline) + "\n";
      StepOfCommit(c, id, files, m, op, MEASUREMENTS, text);
      BaselineReads(c, baseline);
    }
  }

  lemma BaselineReads(c: Codec, baseline: string)
    requires LinesLawful(c)
    ensures ParseMeasurements(c, c.baselineText(baseline) + "\n") == Some(Measurements(baseline, []))
  {
    var line := c.baselineText(baseline);
    LinesAppend("", line);
    assert "" + line == line;
    assert [] + [line] == [line] && [line][1..] == [];
  }

  lemma MeasurementsAppend(c: Codec, text: string, observation: string)
    requires LinesLawful(c) && ParseMeasurements(c, text).Some?
    ensures
      var before := ParseMeasurements(c, text).value;
      ParseMeasurements(c, text + c.observationText(observation) + "\n")
      == Some(before.(observations := before.observations + [observation]))
  {
    var line := c.observationText(observation);
    var lines := LogLines(text).value;
    LinesAppend(text, line);
    assert (lines + [line])[0] == lines[0] && (lines + [line])[1..] == lines[1..] + [line];
    ParseAllAppend(c.parseObservation, lines[1..], line, observation);
  }

  /**
   * Observations are the exception to idempotence: the baseline stays and the list grows by the same
   * observation every time the operation is repeated.
   */
  lemma ObservationAppended(c: Codec, id: string, files: Files, m: Manifest, observation: string)
    requires Lawful(c) && CompleteManifest(c, files) == Ok(Some(m))
    requires MEASUREMENTS in files && ParseMeasurements(c, files[MEASUREMENTS]).Some?
    ensures
      var op := AppendMeasurementObservation(observation);
      var before := ParseMeasurements(c, files[MEASUREMENTS]).value;
      var once := Step(c, id, files, op);
      var twice := Step(c, id, once, op);
      && MEASUREMENTS in once && MEASUREMENTS in twice
      && ParseMeasurements(c, once[MEASUREMENTS]) == Some(before.(observations := before.observations + [observation]))
      && ParseMeasurements(c, twice[MEASUREMENTS])
         == Some(before.(observations := before.observations + [observation, observation]))
      && twice != once
  {
    var op := AppendMeasurementObservation(observation);
    var before := ParseMeasurements(c, files[MEASUREMENTS]).value;
    ObservationStep(c, id, files, m, observation);
    var once := Step(c, id, files, op);
    ObservationStep(c, id, once, CompleteManifest(c, once).value.value, observation);
    assert before.observations + [observation] + [observation] == before.observations + [observation, observation];
  }

  lemma ObservationStep(c: Codec, id: string, files: Files, m: Manifest, observation: string)
    requires Lawful(c) && CompleteManifest(c, files) == Ok(Some(m))
    requires MEASUREMENTS in files && ParseMeasurements(c, files[MEASUREMENTS]).Some?
    ensures
      var after := Step(c, id, files, AppendMeasurementObservation(observation));
      var before := ParseMeasurements(c, files[MEASUREMENTS]).value;
      && MEASUREMENTS in after && |after[MEASUREMENTS]| > |files[MEASUREMENTS]|
      && ParseMeasurements(c, after[MEASUREMENTS]) == Some(before.(observations := before.observations + [observation]))
      && CompleteManifest(c, after).Ok? && CompleteManifest(c, after).value.Some?
  {
    var text := files[MEASUREMENTS] + c.observationText(observation) + "\n";
    StepOfCommit(c, id, files, m, AppendMeasurementObservation(observation), MEASUREMENTS, text);
    MeasurementsAppend(c, files[MEASUREMENTS], observation);
  }

  /** Repeating an enrichment finds the bundle settled and its event logged: nothing is written. */
  lemma EnrichmentRepeat(c: Codec, id: string, files: Files, op: Op)
    requires Lawful(c) && Verified(c, files) && Enriches(c, id, files, op)
    ensures
      var after := Step(c, id, files, op);
      && EventsOf(c, after).Some? && DedupKey(op.event) in Keys(EventsOf(c, after).value)
      && PlanOf(c, id, after, op) == Answers(Duplicate(false), [])
  {
    hide Lawful, PlanEnrichment, PlanComplete, EventsOf, SameIdentity, Verified;
    var m := ReadManifest(c, files).value;
    VerifiedParts(c, id, files, op, m);
    EnrichmentPlanned(c, id, files, m, op);
    EnrichmentStep(c, id, files, m, op);
    EnrichedEvents(c, files, m, ReadProvenance(c, files).value, op);
    var after := Step(c, id, files, op);
    CompleteAfter(c, files, after);
    SettledPlan(c, id, after, ReadManifest(c, after).value, op);
  }

  lemma VerifiedParts(c: Codec, id: string, files: Files, op: Op, m: Manifest)
    requires Lawful(c) && Verified(c, files) && ReadManifest(c, files) == Some(m)
    ensures LinesLawful(c) && Agrees(c, files, m)
    ensures CompleteManifest(c, files) == Ok(Some(m)) && PlanOf(c, id, files, op) == PlanComplete(c, id, m, files, op)
  {
    hide PlanComplete;
  }

  lemma CompleteAfter(c: Codec, files: Files, after: Files)
    requires SameIdentity(c, files, after) && CompleteManifest(c, files) == Ok(ReadManifest(c, files))
    ensures CompleteManifest(c, after) == Ok(ReadManifest(c, after))
  {
  }

  /** A settled bundle that already holds the event has nothing left to write for it. */
  lemma SettledPlan(c: Codec, id: string, files: Files, m: Manifest, op: Op)
    requires CompleteManifest(c, files) == Ok(Some(m)) && op.AppendOutcomeEventWithEnrichment?
    requires ReadProvenance(c, files).Some? && !WantsEnrichment(ReadProvenance(c, files).value)
    requires EventsOf(c, files).Some? && DedupKey(op.event) in Keys(EventsOf(c, files).value)
    ensures PlanOf(c, id, files, op) == Answers(Duplicate(false), [])
  {
    hide EventsOf;
  }

  lemma LoggedAfter(c: Codec, files: Files, e: Event)
    requires LinesLawful(c) && OUTCOMES in files && EventsOf(c, files).Some?
    ensures
      var existing := EventsOf(c, files).value;
      var logged := if DedupKey(e) in Keys(existing) then existing else existing + [e];
      && ParseLog(c.parseEvent, OutcomesAfter(c, files, e)) == Some(logged)
      && DedupKey(e) in Keys(logged)
  {
    var existing := EventsOf(c, files).value;
    var text := files[OUTCOMES];
    if DedupKey(e) !in Keys(existing) {
      LogAppend(c.parseEvent, text, c.eventText(e), e);
      assert text + (c.eventText(e) + "\n") == text + c.eventText(e) + "\n";
      assert e in existing + [e];
    } else {
      assert text + "" == text;
    }
  }

  lemma EnrichedLog(c: Codec, files: Files, m: Manifest, p: Provenance, op: Op)
    requires op.AppendOutcomeEventWithEnrichment? && p.RunLinked?
    requires ReadRecord(c, files).Some? && EventsOf(c, files).Some?
    ensures Lookup(Apply(files, PlanEnrichment(c, m, files, p, op).replacements), OUTCOMES)
            == Some(OutcomesAfter(c, files, op.event))
  {
    var front := ReadRecord(c, files).value.0;
    EnrichmentFiles(c, files, m, p, op);
    EnrichedLookups(files, RecordText(c, front, op.prose), c.provenanceText(EnrichedProvenance(p, op.authorship)),
                    OutcomesAfter(c, files, op.event), c.manifestText(EnrichmentManifest(c, files, m, front, p, op)));
  }

  lemma EnrichedEvents(c: Codec, files: Files, m: Manifest, p: Provenance, op: Op)
    requires LinesLawful(c) && op.AppendOutcomeEventWithEnrichment? && p.RunLinked?
    requires ReadRecord(c, files).Some? && EventsOf(c, files).Some?
    ensures
      var after := Apply(files, PlanEnrichment(c, m, files, p, op).replacements);
      var existing := EventsOf(c, files).value;
      && EventsOf(c, after) == Some(if DedupKey(op.event) in Keys(existing) then existing else existing + [op.event])
      && DedupKey(op.event) in Keys(EventsOf(c, after).value)
  {
    EnrichedLog(c, files, m, p, op);
    LoggedAfter(c, files, op.event);
  }
}
