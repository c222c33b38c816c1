/**
 * The bundle directory on disk: each append is planned from what is there, journaled, and then applied
 * one replacement at a time, so a crash may leave any prefix of the plan behind.
 */
module BundleStore {
  import opened Prelude
  import opened Outcomes
  import opened BundleModel
  import opened BundleParts
  import opened BundleAppend

  predicate MutableTarget(path: string) {
    path == RECORD || path == PROVENANCE || AppendTarget(path) || path == MANIFEST
  }

  ghost predicate DistinctTargets(r: seq<Replacement>) {
    forall i, j :: 0 <= i < j < |r| ==> r[i].relPath != r[j].relPath
  }

  /** What `orderedReplacements` insists on: mutable targets, each once, and the manifest last. */
  ghost predicate Committable(r: seq<Replacement>) {
    && |r| >= 2
    && (forall x :: x in r ==> MutableTarget(x.relPath))
    && DistinctTargets(r)
    && r[|r| - 1].relPath == MANIFEST
  }

  datatype Failure = Refused | Crashed

  /** The answer and the directory that one operation leaves, when the writer may die at replacement `crash`. */
  ghost predicate Realises(c: Codec, id: string, before: Files, op: Op, crash: Option<nat>,
                           after: Files, journal: Option<seq<Replacement>>, r: Result<Answer, Failure>)
  {
    match PlanOf(c, id, before, op)
    case Throws => r == Err(Refused) && after == before && journal == None
    case Answers(answer, replacements) => Committed(before, replacements, answer, crash, after, journal, r)
  }

  ghost predicate Committed(before: Files, replacements: seq<Replacement>, answer: Answer, crash: Option<nat>,
                            after: Files, journal: Option<seq<Replacement>>, r: Result<Answer, Failure>)
  {
    if crash.Some? && crash.value < |replacements| then
      r == Err(Crashed) && after == Apply(before, replacements[..crash.value]) && journal == Some(replacements)
    else
      r == Ok(answer) && after == Apply(before, replacements) && journal == None
  }

  lemma CommitOneCommittable(path: string, text: string, manifestText: string)
    requires AppendTarget(path)
    ensures Committable([Replacement(path, text), Replacement(MANIFEST, manifestText)])
  {
    NamesAreNotArtifacts(path);
  }

  lemma EnrichmentCommittable(a: string, b: string, o: string, t: string, duplicate: bool)
    ensures Committable([Replacement(RECORD, a), Replacement(PROVENANCE, b)]
                        + (if duplicate then [] else [Replacement(OUTCOMES, o)]) + [Replacement(MANIFEST, t)])
  {
    DistinctFixed();
  }

  lemma {:induction false} ApplyLast(files: Files, r: seq<Replacement>, last: Replacement)
    ensures Apply(files, r + [last]) == Apply(files, r)[last.relPath := last.text]
    decreases r
  {
    if r == [] {
      assert r + [last] == [last] && [last][1..] == [];
    } else {
      assert (r + [last])[1..] == r[1..] + [last];
      ApplyLast(files[r[0].relPath := r[0].text], r[1..], last);
    }
  }

  class BundleDirectory {
    const c: Codec
    const id: string
    var files: Files
    /** The durable journal of a mutation that has begun and not completed. */
    var journal: Option<seq<Replacement>>

    constructor (c: Codec, id: string, files: Files)
      ensures this.c == c && this.id == id && this.files == files && journal == None
    {
      this.c, this.id, this.files, journal := c, id, files, None;
    }

    /** `applyJournal`: replays the journal from its first replacement and then drops it. */
    method ApplyJournal(crash: Option<nat>) returns (done: bool)
      requires journal.Some?
      modifies `files, `journal
      ensures
        var r := old(journal).value;
        if crash.Some? && crash.value < |r| then
          !done && files == Apply(old(files), r[..crash.value]) && journal == old(journal)
        else
          done && files == Apply(old(files), r) && journal == None
    {
      var replacements := journal.value;
      for i := 0 to |replacements|
        invariant files == Apply(old(files), replacements[..i])
        invariant journal == old(journal)
        invariant crash.Some? ==> i <= crash.value
      {
        if crash == Some(i) { return false; }
        assert replacements[..i + 1] == replacements[..i] + [replacements[i]];
        ApplyLast(old(files), replacements[..i], replacements[i]);
        files := files[replacements[i].relPath := replacements[i].text];
      }
      assert replacements[..|replacements|] == replacements;
      journal := None;
      done := true;
    }

    method CommitBundleMutation(replacements: seq<Replacement>, answer: Answer, crash: Option<nat>)
      returns (r: Result<Answer, Failure>)
      requires Committable(replacements)
      modifies `files, `journal
      ensures Committed(old(files), replacements, answer, crash, files, journal, r)
    {
      journal := Some(replacements);
      var done := ApplyJournal(crash);
      r := if done then Ok(answer) else Err(Crashed);
    }

    method RewriteBundleFile(m: Manifest, relPath: string, text: string, crash: Option<nat>)
      returns (r: Result<Answer, Failure>)
      requires AppendTarget(relPath)
      modifies `files, `journal
      ensures Committed(old(files), CommitOne(c, m, relPath, text), Appended(false), crash, files, journal, r)
    {
      var manifestText := c.manifestText(RewriteManifest(c, m, relPath, text));
      CommitOneCommittable(relPath, text, manifestText);
      r := CommitBundleMutation([Replacement(relPath, text), Replacement(MANIFEST, manifestText)], Appended(false), crash);
    }

    method AppendGateReceiptLine(receipt: GateLine, crash: Option<nat>) returns (r: Result<Answer, Failure>)
      requires journal == None
      modifies `files, `journal
      ensures Realises(c, id, old(files), AppendGateReceipt(receipt), crash, files, journal, r)
    {
      var manifest := CompleteManifest(c, files);
      if manifest.Err? { return Err(Refused); }
      if manifest.value == None { return Ok(NotFound); }
      if receipt.candidateId != id || GateDigest(c, receipt) != receipt.receiptDigest { return Err(Refused); }
      var existing := GatesOf(c, id, files);
      if existing == None { return Err(Refused); }
      if GateLineIn(existing.value, receipt) { return Ok(Duplicate(false)); }
      var text := TextAt(files, GATES) + c.gateText(receipt) + "\n";
      r := RewriteBundleFile(manifest.value.value, GATES, text, crash);
    }

    method AppendPromotion(op: Op, crash: Option<nat>) returns (r: Result<Answer, Failure>)
      requires op.AppendPromotionReceipt? && journal == None
      modifies `files, `journal
      ensures Realises(c, id, old(files), op, crash, files, journal, r)
    {
      var manifest := CompleteManifest(c, files);
      if manifest.Err? { return Err(Refused); }
      if manifest.value == None { return Ok(NotFound); }
      var line := StampedPromotion(c, op);
      if op.candidateId != id { return Err(Refused); }
      var existing := GatesOf(c, id, files);
      if existing == None { return Err(Refused); }
      if PromotionIn(existing.value, line) { return Ok(Duplicate(false)); }
      var text := TextAt(files, GATES) + c.gateText(line) + "\n";
      r := RewriteBundleFile(manifest.value.value, GATES, text, crash);
    }

    method AppendOutcome(event: Event, crash: Option<nat>) returns (r: Result<Answer, Failure>)
      requires journal == None
      modifies `files, `journal
      ensures Realises(c, id, old(files), AppendOutcomeEvent(event), crash, files, journal, r)
      ensures CompleteManifest(c, old(files)).Ok? && CompleteManifest(c, old(files)).value.Some? ==>
                match PlanOutcome(c, CompleteManifest(c, old(files)).value.value, old(files), event)
                case Throws => r == Err(Refused) && files == old(files) && journal == None
                case Answers(answer, replacements) =>
                  Committed(old(files), replacements, answer, crash, files, journal, r)
    {
      var manifest := CompleteManifest(c, files);
      if manifest.Err? { return Err(Refused); }
      if manifest.value == None { return Ok(NotFound); }
      var existing := EventsOf(c, files);
      if existing == None { return Err(Refused); }
      if DedupKey(event) in Keys(existing.value) { return Ok(Duplicate(false)); }
      r := RewriteBundleFile(manifest.value.value, OUTCOMES, files[OUTCOMES] + c.eventText(event) + "\n", crash);
    }

    method WriteBaseline(baseline: string, crash: Option<nat>) returns (r: Result<Answer, Failure>)
      requires journal == None
      modifies `files, `journal
      ensures Realises(c, id, old(files), WriteMeasurementBaseline(baseline), crash, files, journal, r)
    {
      var manifest := CompleteManifest(c, files);
      if manifest.Err? { return Err(Refused); }
      if manifest.value == None { return Ok(NotFound); }
      if MEASUREMENTS in files { return Ok(Duplicate(false)); }
      r := RewriteBundleFile(manifest.value.value, MEASUREMENTS, c.baselineText(baseline) + "\n", crash);
    }

    method AppendObservation(observation: string, crash: Option<nat>) returns (r: Result<Answer, Failure>)
      requires journal == None
      modifies `files, `journal
      ensures Realises(c, id, old(files), AppendMeasurementObservation(observation), crash, files, journal, r)
    {
      var manifest := CompleteManifest(c, files);
      if manifest.Err? { return Err(Refused); }
      if manifest.value == None { return Ok(NotFound); }
      if MEASUREMENTS !in files { return Ok(NotFound); }
      if ParseMeasurements(c, files[MEASUREMENTS]) == None { return Err(Refused); }
      var text := files[MEASUREMENTS] + c.observationText(observation) + "\n";
      r := RewriteBundleFile(manifest.value.value, MEASUREMENTS, text, crash);
    }

    method AppendRelationRow(relation: Relation, crash: Option<nat>) returns (r: Result<Answer, Failure>)
      requires journal == None
      modifies `files, `journal
      ensures Realises(c, id, old(files), AppendRelation(relation), crash, files, journal, r)
    {
      var manifest := CompleteManifest(c, files);
      if manifest.Err? { return Err(Refused); }
      if manifest.value == None { return Ok(NotFound); }
      if RELATIONS !in files { return Err(Refused); }
      var existing := c.parseRelations(files[RELATIONS]);
      if existing == None { return Err(Refused); }
      if exists x :: x in existing.value && RelationKey(x) == RelationKey(relation) { return Ok(Duplicate(false)); }
      r := RewriteBundleFile(manifest.value.value, RELATIONS, c.relationsText(existing.value + [relation]), crash);
    }

    method AppendOutcomeWithEnrichment(op: Op, crash: Option<nat>) returns (r: Result<Answer, Failure>)
      requires op.AppendOutcomeEventWithEnrichment? && journal == None
      modifies `files, `journal
      ensures Realises(c, id, old(files), op, crash, files, journal, r)
    {
      var manifest := CompleteManifest(c, files);
      if manifest.Err? { return Err(Refused); }
      if manifest.value == None { return Ok(NotFound); }
      var provenance := ReadProvenance(c, files);
      if provenance == None { return Err(Refused); }
      if !WantsEnrichment(provenance.value) {
        r := AppendOutcome(op.event, crash);
        return;
      }
      r := Enrich(manifest.value.value, provenance.value, op, crash);
    }

    method Enrich(m: Manifest, p: Provenance, op: Op, crash: Option<nat>) returns (r: Result<Answer, Failure>)
      requires op.AppendOutcomeEventWithEnrichment? && p.RunLinked? && journal == None
      modifies `files, `journal
      ensures
        match PlanEnrichment(c, m, old(files), p, op)
        case Throws => r == Err(Refused) && files == old(files) && journal == None
        case Answers(answer, replacements) => Committed(old(files), replacements, answer, crash, files, journal, r)
    {
      var record := ReadRecord(c, files);
      if record == None { return Err(Refused); }
      var front := record.value.0;
      var recordText := RecordText(c, front, op.prose);
      var provenanceText := c.provenanceText(EnrichedProvenance(p, op.authorship));
      var existing := EventsOf(c, files);
      if existing == None { return Err(Refused); }
      var duplicate := DedupKey(op.event) in Keys(existing.value);
      var outcomesText := OutcomesAfter(c, files, op.event);
      var manifest := EnrichmentManifest(c, files, m, front, p, op);
      var manifestText := c.manifestText(manifest);
      var replacements :=
        [Replacement(RECORD, recordText), Replacement(PROVENANCE, provenanceText)]
        + (if duplicate then [] else [Replacement(OUTCOMES, outcomesText)])
        + [Replacement(MANIFEST, manifestText)];
      EnrichmentCommittable(recordText, provenanceText, outcomesText, manifestText, duplicate);
      r := CommitBundleMutation(replacements, if duplicate then Duplicate(true) else Appended(true), crash);
    }
  }

  // ----- crash and recovery -----

  /** Everything a list of replacements writes, the last write to a path winning. */
  function Overlay(r: seq<Replacement>): Files { Apply(map[], r) }

  lemma {:induction false} ApplyIsOverlay(files: Files, base: Files, r: seq<Replacement>)
    ensures Apply(files + base, r) == files + Apply(base, r)
    decreases r
  {
    if r != [] {
      var p, t := r[0].relPath, r[0].text;
      assert (files + base)[p := t] == files + base[p := t];
      ApplyIsOverlay(files, base[p := t], r[1..]);
    }
  }

  lemma {:induction false} ApplyKeys(base: Files, r: seq<Replacement>)
    ensures Apply(base, r).Keys == base.Keys + set x | x in r :: x.relPath
    decreases r
  {
    if r != [] {
      ApplyKeys(base[r[0].relPath := r[0].text], r[1..]);
      assert r == [r[0]] + r[1..];
    }
  }

  /** Replaying a journal over any prefix of itself ends where an undisturbed commit ends. */
  lemma ReplayAfterCrash(files: Files, r: seq<Replacement>, n: nat)
    requires n <= |r|
    ensures Apply(Apply(files, r[..n]), r) == Apply(files, r)
  {
    var torn := Apply(files, r[..n]);
    assert files + map[] == files && torn + map[] == torn;
    ApplyIsOverlay(files, map[], r[..n]);
    ApplyIsOverlay(files, map[], r);
    ApplyIsOverlay(torn, map[], r);
    ApplyKeys(map[], r[..n]);
    ApplyKeys(map[], r);
    assert (files + Overlay(r[..n])) + Overlay(r) == files + Overlay(r);
  }

  /** Attempts that each died at their own replacement. */
  function Attempts(files: Files, r: seq<Replacement>, crashes: seq<nat>): Files
    requires forall i :: 0 <= i < |crashes| ==> crashes[i] <= |r|
    decreases crashes
  {
    if crashes == [] then files else Attempts(Apply(files, r[..crashes[0]]), r, crashes[1..])
  }

  /** However often the writer and its recovery die, the recovery that completes restores the intended bundle. */
  lemma {:induction false} RecoveryConverges(files: Files, r: seq<Replacement>, crashes: seq<nat>)
    requires forall i :: 0 <= i < |crashes| ==> crashes[i] <= |r|
    ensures Apply(Attempts(files, r, crashes), r) == Apply(files, r)
    decreases crashes
  {
    if crashes != [] {
      RecoveryConverges(Apply(files, r[..crashes[0]]), r, crashes[1..]);
      ReplayAfterCrash(files, r, crashes[0]);
    }
  }

  /** The read-back after a completed journal never fails: distinct targets hold what was written. */
  lemma {:induction false} WrittenReadsBack(files: Files, r: seq<Replacement>, k: nat)
    requires DistinctTargets(r) && k < |r|
    ensures Lookup(Apply(files, r), r[k].relPath) == Some(r[k].text)
    decreases |r|
  {
    var front, last := r[..|r| - 1], r[|r| - 1];
    assert r == front + [last];
    ApplyLast(files, front, last);
    if k < |front| { WrittenReadsBack(files, front, k); }
  }

  // ----- what a reader of a torn bundle sees -----

  /** Rendered bundles list every part that a later operation rewrites together with the manifest. */
  predicate Listed(m: Manifest) {
    RECORD in m.contentHashes && PROVENANCE in m.contentHashes && OUTCOMES in m.contentHashes
    && RELATIONS in m.contentHashes && ARTIFACTS_INDEX in m.contentHashes
  }

  /** The first `n` replacements changed no part that the manifest lists. */
  ghost predicate Unseen(files: Files, m: Manifest, r: seq<Replacement>, n: nat)
    requires n <= |r|
  {
    forall k :: 0 <= k < n && r[k].relPath in m.contentHashes ==> Lookup(files, r[k].relPath) == Some(r[k].text)
  }

  lemma {:induction false} UntouchedPath(files: Files, r: seq<Replacement>, path: string)
    requires forall x :: x in r ==> x.relPath != path
    ensures Lookup(Apply(files, r), path) == Lookup(files, path)
    decreases r
  {
    if r != [] {
      assert r[0] in r;
      UntouchedPath(files[r[0].relPath := r[0].text], r[1..], path);
    }
  }

  lemma TornLookups(files: Files, m: Manifest, r: seq<Replacement>, n: nat)
    requires Committable(r) && n < |r|
    ensures
      var torn := Apply(files, r[..n]);
      && Lookup(torn, MANIFEST) == Lookup(files, MANIFEST)
      && Lookup(torn, ARTIFACTS_INDEX) == Lookup(files, ARTIFACTS_INDEX)
      && (forall p :: |p| >= 10 && p[9] == '/' ==> Lookup(torn, p) == Lookup(files, p))
      && (forall k :: 0 <= k < n ==> Lookup(torn, r[k].relPath) == Some(r[k].text))
  {
    var front := r[..n];
    var torn := Apply(files, front);
    DistinctFixed();
    forall x | x in front ensures x.relPath != MANIFEST && MutableTarget(x.relPath) {
      assert x in r;
    }
    UntouchedPath(files, front, MANIFEST);
    forall x | x in front ensures x.relPath != ARTIFACTS_INDEX { NamesAreNotArtifacts(x.relPath); }
    UntouchedPath(files, front, ARTIFACTS_INDEX);
    forall p: string | |p| >= 10 && p[9] == '/' ensures Lookup(torn, p) == Lookup(files, p) {
      forall x | x in front ensures x.relPath != p { NamesAreNotArtifacts(x.relPath); }
      UntouchedPath(files, front, p);
    }
    forall k | 0 <= k < n ensures Lookup(torn, r[k].relPath) == Some(r[k].text) {
      assert front[k] == r[k];
      WrittenReadsBack(files, front, k);
    }
  }

  lemma UnseenAgrees(files: Files, m: Manifest, r: seq<Replacement>, n: nat, p: string)
    requires Committable(r) && n < |r| && Unseen(files, m, r, n) && p in m.contentHashes
    ensures Lookup(Apply(files, r[..n]), p) == Lookup(files, p)
  {
    var front := r[..n];
    if x :| x in front && x.relPath == p {
      var k :| 0 <= k < |front| && front[k] == x;
      TornLookups(files, m, r, n);
      assert r[k].relPath == p;
    } else {
      UntouchedPath(files, front, p);
    }
  }

  lemma AgreeingBinds(c: Codec, files: Files, torn: Files, m: Manifest)
    requires Lookup(torn, RECORD) == Lookup(files, RECORD) && Lookup(torn, PROVENANCE) == Lookup(files, PROVENANCE)
    ensures RecordBinds(c, torn, m) == RecordBinds(c, files, m)
    ensures ProvenanceBinds(c, torn, m) == ProvenanceBinds(c, files, m)
  {
  }

  lemma AgreeingHashes(c: Codec, files: Files, torn: Files, m: Manifest)
    requires HashesMatch(c, files, m)
    requires forall p :: p in m.contentHashes ==> Lookup(torn, p) == Lookup(files, p)
    ensures HashesMatch(c, torn, m)
  {
    forall p | p in m.contentHashes ensures p in torn && c.sha(torn[p]) == m.contentHashes[p] {
      assert Lookup(torn, p) == Lookup(files, p);
    }
  }

  /**
   * A reader that meets a bundle whose writer died part way accepts it exactly when no listed part has
   * changed yet. The first gate or measurement line is the case that slips through: its file is not
   * listed before the manifest is rewritten.
   */
  lemma TornVerifiedIff(c: Codec, files: Files, m: Manifest, r: seq<Replacement>, n: nat)
    requires ShaSeparates(c) && PartsLawful(c)
    requires ReadManifest(c, files) == Some(m) && Agrees(c, files, m) && Listed(m)
    requires Committable(r) && n < |r|
    ensures Verified(c, Apply(files, r[..n])) <==> Unseen(files, m, r, n)
  {
    var torn := Apply(files, r[..n]);
    TornLookups(files, m, r, n);
    assert ReadManifest(c, torn) == Some(m);
    if Unseen(files, m, r, n) {
      forall p | p in m.contentHashes ensures Lookup(torn, p) == Lookup(files, p) { UnseenAgrees(files, m, r, n, p); }
      AgreeingBinds(c, files, torn, m);
      AgreeingHashes(c, files, torn, m);
      MatchingDigests(c, files, m);
      MatchingDigests(c, torn, m);
      ArtifactsUntouched(c, files, torn);
    }
    if HashesMatch(c, torn, m) {
      forall k | 0 <= k < n && r[k].relPath in m.contentHashes
        ensures Lookup(files, r[k].relPath) == Some(r[k].text)
      {
        var p := r[k].relPath;
        assert c.sha(torn[p]) == m.contentHashes[p] == c.sha(files[p]);
        assert c.textOfSha(c.sha(torn[p])) == torn[p] && c.textOfSha(c.sha(files[p])) == files[p];
      }
    }
  }

  lemma UnlistedUnseen(files: Files, m: Manifest, r: seq<Replacement>)
    requires |r| >= 2 && r[0].relPath !in m.contentHashes
    ensures Unseen(files, m, r, 1)
  {
  }

  lemma FirstWritten(files: Files, r: seq<Replacement>)
    requires |r| >= 1
    ensures Lookup(Apply(files, r[..1]), r[0].relPath) == Some(r[0].text)
  {
    assert r[..1][1..] == [];
  }

  lemma UnlistedSlipsThrough(c: Codec, files: Files, m: Manifest, r: seq<Replacement>)
    requires ShaSeparates(c) && PartsLawful(c) && ReadManifest(c, files) == Some(m) && Agrees(c, files, m) && Listed(m)
    requires Committable(r) && r[0].relPath !in m.contentHashes
    ensures Verified(c, Apply(files, r[..1]))
    ensures Lookup(Apply(files, r[..1]), r[0].relPath) == Some(r[0].text)
  {
    UnlistedUnseen(files, m, r);
    TornVerifiedIff(c, files, m, r, 1);
    FirstWritten(files, r);
  }

  /**
   * The first line of a log that is not listed yet: once it is written and before the manifest is, the
   * old manifest still accepts the bundle, log and all.
   */
  lemma FirstLineSlipsThrough(c: Codec, files: Files, m: Manifest, path: string, text: string)
    requires Lawful(c) && ReadManifest(c, files) == Some(m) && Agrees(c, files, m) && Listed(m)
    requires (path == GATES || path == MEASUREMENTS) && path !in m.contentHashes
    ensures
      var torn := Apply(files, CommitOne(c, m, path, text)[..1]);
      Verified(c, torn) && Lookup(torn, path) == Some(text)
  {
    CommitOneCommittable(path, text, c.manifestText(RewriteManifest(c, m, path, text)));
    UnlistedSlipsThrough(c, files, m, CommitOne(c, m, path, text));
  }

  /** A crashed operation and the recovery of its journal together do what the operation does. */
  lemma CrashThenRecover(c: Codec, id: string, before: Files, op: Op, crash: Option<nat>,
                         torn: Files, journal: Option<seq<Replacement>>)
    requires Realises(c, id, before, op, crash, torn, journal, Err(Crashed))
    ensures journal.Some? && Apply(torn, journal.value) == Step(c, id, before, op)
  {
    ReplayAfterCrash(before, journal.value, crash.value);
  }

  /** Listing survives every operation, so the exact condition applies to every reachable bundle. */
  lemma ListedSurvives(c: Codec, id: string, files: Files, op: Op)
    requires Lawful(c) && Verified(c, files) && Listed(ReadManifest(c, files).value)
    ensures ReadManifest(c, Step(c, id, files, op)).Some? && Listed(ReadManifest(c, Step(c, id, files, op)).value)
  {
    var m := ReadManifest(c, files).value;
    if Enriches(c, id, files, op) {
      EnrichmentPlanned(c, id, files, m, op);
      EnrichedManifestRead(c, files, m, ReadProvenance(c, files).value, op);
    } else {
      UnenrichedIsPlain(c, id, files, m, op);
      var plan := PlanComplete(c, id, m, files, op);
      if plan.Answers? && plan.replacements != [] {
        AppendKeepsVerified(c, files, plan.replacements[0].relPath, plan.replacements[0].text);
      }
    }
  }

  lemma EnrichmentManifestListed(c: Codec, files: Files, m: Manifest, front: Frontmatter, p: Provenance, op: Op)
    requires op.AppendOutcomeEventWithEnrichment? && p.RunLinked? && EventsOf(c, files).Some?
    requires ValidManifest(m) && Listed(m)
    ensures ValidManifest(EnrichmentManifest(c, files, m, front, p, op))
    ensures Listed(EnrichmentManifest(c, files, m, front, p, op))
  {
    DistinctFixed();
  }

  lemma EnrichedManifestRead(c: Codec, files: Files, m: Manifest, p: Provenance, op: Op)
    requires ManifestLawful(c) && ReadManifest(c, files) == Some(m) && Listed(m)
    requires op.AppendOutcomeEventWithEnrichment? && p.RunLinked?
    requires ReadRecord(c, files).Some? && EventsOf(c, files).Some?
    ensures
      var after := Apply(files, PlanEnrichment(c, m, files, p, op).replacements);
      ReadManifest(c, after).Some? && Listed(ReadManifest(c, after).value)
  {
    var front := ReadRecord(c, files).value.0;
    var after := Apply(files, PlanEnrichment(c, m, files, p, op).replacements);
    EnrichmentFiles(c, files, m, p, op);
    ManifestParsed(c, files, m);
    EnrichmentManifestListed(c, files, m, front, p, op);
    ManifestReadsBack(c, after, EnrichmentManifest(c, files, m, front, p, op));
  }
}
