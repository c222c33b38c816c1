/** Rendering a bundle: the parts, the manifest that hashes them, and when the result is verified. */
module BundleParts {
  import opened Prelude
  import opened Lines
  import opened Anchors
  import opened RecordMarkdown
  import opened Outcomes
  import opened BundleModel
  import ArtifactCopy

  datatype Draft = Draft(
    kind: BundleKind,
    subtype: Option<string>,
    anchors: seq<Anchor>,
    scope: Scope,
    summary: string,
    body: string)

  datatype Discriminant = Discriminant(kind: BundleKind, subtype: Option<string>, key: string)

  /** Everything a bundle is rendered from; screen states and the optional parts are already text. */
  datatype RenderInput = RenderInput(
    draft: Draft,
    discriminant: Discriminant,
    originClass: OriginClass,
    createdAtOrdinal: int,
    screenStates: seq<string>,
    initialEvents: seq<Event>,
    relations: seq<Relation>,
    provenance: Provenance,
    copied: seq<ArtifactCopy.CopiedArtifact>,
    skipped: seq<ArtifactCopy.SkippedArtifact>,
    evidenceIncomplete: bool,
    evidenceMarkdown: Option<string>,
    observations: Option<string>)

  datatype RenderError = NoAnchor | KindMismatch | FactWithoutSubtype | SubtypeMismatch | SubtypeOnNonFact

  datatype Part = Part(relPath: string, text: string)

  datatype Rendered = Rendered(parts: seq<Part>, manifest: Manifest, record: Frontmatter, prose: Prose)

  function ValidateIdentityInputs(draft: Draft, discriminant: Discriminant): Result<Option<string>, RenderError> {
    if draft.anchors == [] then Err(NoAnchor)
    else if discriminant.kind != draft.kind then Err(KindMismatch)
    else if draft.kind.Fact? then
      if draft.subtype == None then Err(FactWithoutSubtype)
      else if discriminant.subtype != draft.subtype then Err(SubtypeMismatch)
      else Ok(draft.subtype)
    else if draft.subtype != None then Err(SubtypeOnNonFact)
    else Ok(None)
  }

  function ReasonText(reason: ArtifactCopy.SkipReason): string {
    match reason
    case StepCap => "step-cap"
    case RunCap => "run-cap"
    case PrunedSource => "pruned-source"
    case ShaMismatch => "sha-mismatch"
  }

  function IndexEntry(r: ArtifactCopy.CopiedArtifact): ArtifactEntry {
    ArtifactEntry(r.ref.id, r.ref.sha, r.bytes, r.stepIndex, r.relPath, r.role, r.originalName)
  }

  function SkippedIndexEntry(s: ArtifactCopy.SkippedArtifact): SkippedEntry {
    SkippedEntry(s.ref.id, s.ref.sha, s.stepIndex,
                 "artifacts/" + s.ref.sha, ReasonText(s.reason))
  }

  function RenderArtifactIndex(copied: seq<ArtifactCopy.CopiedArtifact>, skipped: seq<ArtifactCopy.SkippedArtifact>)
    : (index: ArtifactsIndex)
    ensures |index.artifacts| == |copied|
  {
    ArtifactsIndex(Map(IndexEntry, copied), Map(SkippedIndexEntry, skipped))
  }

  function DigitText(n: nat): string {
    if n < 10 then [('0' as int + n) as char] else DigitText(n / 10) + [('0' as int + n % 10) as char]
  }

  function SnapshotPath(stepIndex: nat): string { "evidence/screenstates/step-" + DigitText(stepIndex) + ".json" }

  function Snapshots(states: seq<string>, first: nat): seq<Part> {
    if states == [] then [] else [Part(SnapshotPath(first), states[0])] + Snapshots(states[1..], first + 1)
  }

  function OptionalPart(relPath: string, text: Option<string>): seq<Part> {
    if text == None then [] else [Part(relPath, text.value)]
  }

  function EventLines(c: Codec, events: seq<Event>): seq<string> { Map(c.eventText, events) }

  /** `Object.fromEntries`, and the directory the parts are written to: the last part under a path wins. */
  function PartsMap(parts: seq<Part>): map<string, string> {
    if parts == [] then map[]
    else PartsMap(parts[..|parts| - 1])[parts[|parts| - 1].relPath := parts[|parts| - 1].text]
  }

  function Digests(c: Codec, files: map<string, string>): map<string, string> {
    map p | p in files :: c.sha(files[p])
  }

  function AnchorPairs(anchors: seq<Anchor>): seq<AnchorPair> {
    Map((raw: Anchor) => AnchorPair(raw, Normalize(raw)), anchors)
  }

  function CoreOf(input: RenderInput, subtype: Option<string>): IdentityCore
    requires input.draft.anchors != []
  {
    IdentityCore(input.draft.kind, subtype, Normalize(input.draft.anchors[0]), input.draft.scope, input.discriminant.key)
  }

  /** The identity as computed from the raw primary anchor: it is normalised once on the way in. */
  function IdentityInput(input: RenderInput, subtype: Option<string>): IdentityCore
    requires input.draft.anchors != []
  {
    IdentityCore(input.draft.kind, subtype, input.draft.anchors[0], input.draft.scope, input.discriminant.key)
  }

  function RecordOf(c: Codec, input: RenderInput, subtype: Option<string>): Frontmatter
    requires input.draft.anchors != []
  {
    Frontmatter(
      MintId(c, IdentityInput(input, subtype)), input.draft.kind, subtype, AnchorPairs(input.draft.anchors),
      input.draft.scope, input.createdAtOrdinal, input.originClass,
      input.evidenceIncomplete)
  }

  function ProseOf(input: RenderInput): Prose { Prose(input.draft.summary, input.draft.body) }

  function HashedParts(c: Codec, input: RenderInput, record: Frontmatter): seq<Part> {
    [Part(RECORD, RecordText(c, record, ProseOf(input))),
     Part(PROVENANCE, c.provenanceText(input.provenance.(originClass := input.originClass))),
     Part(RELATIONS, c.relationsText(input.relations))]
    + Snapshots(input.screenStates, 0)
    + OptionalPart("observations.jsonl", input.observations)
    + [Part(OUTCOMES, LogText(EventLines(c, input.initialEvents)))]
    + OptionalPart("evidence/evidence.md", input.evidenceMarkdown)
    + [Part(ARTIFACTS_INDEX, c.artifactsText(RenderArtifactIndex(input.copied, input.skipped)))]
  }

  function ManifestOf(c: Codec, input: RenderInput, subtype: Option<string>, record: Frontmatter, parts: seq<Part>): Manifest
    requires input.draft.anchors != []
  {
    Manifest(
      record.id,
      IdentityHash(c, IdentityInput(input, subtype)),
      CoreOf(input, subtype),
      EmbeddingInput(c, ProseOf(input), record.anchors),
      Digests(c, PartsMap(parts)),
      c.sha(c.mutableText(MutableParts(
        Some(c.sha(LogText(EventLines(c, input.initialEvents)))),
        Some(c.sha(c.relationsText(input.relations))),
        Some(c.sha(c.artifactsText(RenderArtifactIndex(input.copied, input.skipped)))),
        None, None))),
      input.evidenceIncomplete,
      true,
      input.createdAtOrdinal,
      input.originClass)
  }

  /** All parts of a valid input, the manifest last. */
  function RenderWith(c: Codec, input: RenderInput, subtype: Option<string>): Rendered
    requires input.draft.anchors != []
  {
    var record := RecordOf(c, input, subtype);
    var parts := HashedParts(c, input, record);
    var manifest := ManifestOf(c, input, subtype, record, parts);
    Rendered(parts + [Part(MANIFEST, c.manifestText(manifest))], manifest, record, ProseOf(input))
  }

  function RenderBundleParts(c: Codec, input: RenderInput): Result<Rendered, RenderError> {
    match ValidateIdentityInputs(input.draft, input.discriminant)
    case Err(e) => Err(e)
    case Ok(subtype) => Ok(RenderWith(c, input, subtype))
  }

  /** The staged directory: the copied artifacts, then every part in order. */
  function StagedFiles(artifacts: Files, rendered: Rendered): Files {
    artifacts + PartsMap(rendered.parts)
  }

  // ----- looking parts up -----

  lemma {:induction false} PartsMapHas(parts: seq<Part>, i: nat)
    requires i < |parts| && forall j :: i < j < |parts| ==> parts[j].relPath != parts[i].relPath
    ensures parts[i].relPath in PartsMap(parts) && PartsMap(parts)[parts[i].relPath] == parts[i].text
  {
    if i < |parts| - 1 {
      var prior := parts[..|parts| - 1];
      PartsMapHas(prior, i);
      assert parts[|parts| - 1].relPath != parts[i].relPath;
    }
  }

  lemma {:induction false} PartsMapKeys(parts: seq<Part>, path: string)
    requires forall j :: 0 <= j < |parts| ==> parts[j].relPath != path
    ensures path !in PartsMap(parts)
  {
    if parts != [] { PartsMapKeys(parts[..|parts| - 1], path); }
  }

  lemma {:induction false} SnapshotPaths(states: seq<string>, first: nat, j: nat)
    requires j < |Snapshots(states, first)|
    ensures |Snapshots(states, first)[j].relPath| > 10 && Snapshots(states, first)[j].relPath[9..11] == "sc"
  {
    if j == 0 {
      assert SnapshotPath(first)[9..11] == "sc";
    } else {
      SnapshotPaths(states[1..], first + 1, j - 1);
    }
  }

  /** The paths of `HashedParts` by position from either end. */
  lemma PartPositions(c: Codec, input: RenderInput, record: Frontmatter)
    ensures
      var parts := HashedParts(c, input, record);
      var n := |parts|;
      var o := n - 2 - |OptionalPart("evidence/evidence.md", input.evidenceMarkdown)|;
      && 3 <= o < n - 1
      && parts[0] == Part(RECORD, RecordText(c, record, ProseOf(input)))
      && parts[1] == Part(PROVENANCE, c.provenanceText(input.provenance.(originClass := input.originClass)))
      && parts[2] == Part(RELATIONS, c.relationsText(input.relations))
      && parts[o] == Part(OUTCOMES, LogText(EventLines(c, input.initialEvents)))
      && parts[n - 1] == Part(ARTIFACTS_INDEX, c.artifactsText(RenderArtifactIndex(input.copied, input.skipped)))
      && (forall j :: o < j < n - 1 ==> parts[j].relPath == "evidence/evidence.md")
      && (forall j :: 3 <= j < o ==> parts[j].relPath == "observations.jsonl"
                                     || (|parts[j].relPath| > 10 && parts[j].relPath[9..11] == "sc"))
  {
    hide Snapshots, RecordText, LogText, EventLines, RenderArtifactIndex, ProseOf;
    var snaps := Snapshots(input.screenStates, 0);
    var obs := OptionalPart("observations.jsonl", input.observations);
    var evidence := OptionalPart("evidence/evidence.md", input.evidenceMarkdown);
    var parts := HashedParts(c, input, record);
    var front := parts[..3];
    var n := |parts|;
    assert parts == front + (snaps + obs) + [parts[n - 2 - |evidence|]] + evidence + [parts[n - 1]];
    Positions(front, snaps + obs, parts[n - 2 - |evidence|], evidence, parts[n - 1]);
    forall j | 0 <= j < |snaps + obs|
      ensures (snaps + obs)[j].relPath == "observations.jsonl"
              || (|(snaps + obs)[j].relPath| > 10 && (snaps + obs)[j].relPath[9..11] == "sc")
    {
      if j < |snaps| { SnapshotPaths(input.screenStates, 0, j); }
    }
  }

  lemma Positions(front: seq<Part>, middle: seq<Part>, log: Part, evidence: seq<Part>, last: Part)
    ensures
      var s := front + middle + [log] + evidence + [last];
      var o := |front| + |middle|;
      && (forall j :: |front| <= j < o ==> s[j] == middle[j - |front|])
      && s[o] == log
      && (forall j :: o < j < |s| - 1 ==> s[j] == evidence[j - o - 1])
      && s[|s| - 1] == last
  {
  }

  predicate Fixed(path: string) {
    || path == RECORD || path == PROVENANCE || path == RELATIONS || path == OUTCOMES
    || path == ARTIFACTS_INDEX || path == MANIFEST || path == MEASUREMENTS || path == GATES
  }

  lemma FixedPaths(path: string)
    requires Fixed(path)
    ensures path != "observations.jsonl" && path != "evidence/evidence.md"
    ensures |path| > 10 ==> path[9..11] != "sc"
  {
    assert OUTCOMES[9] == 'o' && MEASUREMENTS[9] == 'm' && GATES[9] == 'g';
    assert PROVENANCE[9] == 'e' && RELATIONS[9] == '.' && ARTIFACTS_INDEX[9] == '.';
    assert MANIFEST[9] == 'j' && |RECORD| == 9;
    assert |path| > 10 ==> path[9..11][0] == path[9];
  }

  lemma DistinctFixed()
    ensures RECORD != PROVENANCE && RECORD != RELATIONS && RECORD != OUTCOMES && RECORD != ARTIFACTS_INDEX
    ensures RECORD != MANIFEST && RECORD != MEASUREMENTS && RECORD != GATES
    ensures PROVENANCE != RELATIONS && PROVENANCE != OUTCOMES && PROVENANCE != ARTIFACTS_INDEX
    ensures PROVENANCE != MANIFEST && PROVENANCE != MEASUREMENTS && PROVENANCE != GATES
    ensures RELATIONS != OUTCOMES && RELATIONS != ARTIFACTS_INDEX && RELATIONS != MANIFEST
    ensures RELATIONS != MEASUREMENTS && RELATIONS != GATES
    ensures OUTCOMES != ARTIFACTS_INDEX && OUTCOMES != MANIFEST && OUTCOMES != MEASUREMENTS && OUTCOMES != GATES
    ensures ARTIFACTS_INDEX != MANIFEST && ARTIFACTS_INDEX != MEASUREMENTS && ARTIFACTS_INDEX != GATES
    ensures MANIFEST != MEASUREMENTS && MANIFEST != GATES && MEASUREMENTS != GATES
  {
    assert |RECORD| == 9 && |PROVENANCE| == 15 && |RELATIONS| == 14 && |OUTCOMES| == 23;
    assert |ARTIFACTS_INDEX| == 20 && |MANIFEST| == 13 && |MEASUREMENTS| == 26 && |GATES| == 20;
    assert ARTIFACTS_INDEX[0] == 'a' && GATES[0] == 'e';
  }

  /** Position of the outcome log among the hashed parts. */
  function OutcomesAt(c: Codec, input: RenderInput, record: Frontmatter): int {
    |HashedParts(c, input, record)| - 2 - |OptionalPart("evidence/evidence.md", input.evidenceMarkdown)|
  }

  lemma FixedAt(c: Codec, input: RenderInput, record: Frontmatter, i: nat)
    requires i < |HashedParts(c, input, record)|
    requires i < 3 || i == OutcomesAt(c, input, record) || i == |HashedParts(c, input, record)| - 1
    ensures
      var parts := HashedParts(c, input, record);
      Lookup(PartsMap(parts), parts[i].relPath) == Some(parts[i].text)
  {
    PartPositions(c, input, record);
    DistinctFixed();
    var parts := HashedParts(c, input, record);
    FixedPaths(parts[i].relPath);
    PartsMapHas(parts, i);
  }

  lemma FixedAbsent(c: Codec, input: RenderInput, record: Frontmatter, path: string)
    requires path == MEASUREMENTS || path == GATES || path == MANIFEST
    ensures path !in PartsMap(HashedParts(c, input, record))
  {
    PartPositions(c, input, record);
    DistinctFixed();
    FixedPaths(path);
    PartsMapKeys(HashedParts(c, input, record), path);
  }

  /** What the hashed parts hold under each fixed path. */
  predicate HoldsFixed(c: Codec, input: RenderInput, record: Frontmatter, m: map<string, string>) {
      && Lookup(m, RECORD) == Some(RecordText(c, record, ProseOf(input)))
      && Lookup(m, PROVENANCE) == Some(c.provenanceText(input.provenance.(originClass := input.originClass)))
      && Lookup(m, RELATIONS) == Some(c.relationsText(input.relations))
      && Lookup(m, OUTCOMES) == Some(LogText(EventLines(c, input.initialEvents)))
      && Lookup(m, ARTIFACTS_INDEX) == Some(c.artifactsText(RenderArtifactIndex(input.copied, input.skipped)))
      && MEASUREMENTS !in m && GATES !in m && MANIFEST !in m
  }

  lemma PartContents(c: Codec, input: RenderInput, record: Frontmatter)
    ensures HoldsFixed(c, input, record, PartsMap(HashedParts(c, input, record)))
  {
    PartPositions(c, input, record);
    FixedAt(c, input, record, 0);
    FixedAt(c, input, record, 1);
    FixedAt(c, input, record, 2);
    FixedAt(c, input, record, OutcomesAt(c, input, record));
    FixedAt(c, input, record, |HashedParts(c, input, record)| - 1);
    FixedAbsent(c, input, record, MEASUREMENTS);
    FixedAbsent(c, input, record, GATES);
    FixedAbsent(c, input, record, MANIFEST);
  }

  // ----- the base case of the integrity invariant -----

  /** Every copied row's file is among the artifacts, with the digest and length of the row. */
  predicate ArtifactsBacked(c: Codec, artifacts: Files, copied: seq<ArtifactCopy.CopiedArtifact>) {
    forall k :: 0 <= k < |copied| ==>
      && copied[k].relPath == "artifacts/" + copied[k].ref.sha
      && copied[k].relPath in artifacts
      && c.sha(artifacts[copied[k].relPath]) == copied[k].ref.sha
      && |artifacts[copied[k].relPath]| == copied[k].bytes
  }

  lemma AnchorPairsShape(anchors: seq<Anchor>)
    requires anchors != []
    ensures AnchorPairs(anchors) != [] && AnchorPairs(anchors)[0] == AnchorPair(anchors[0], Normalize(anchors[0]))
  {
  }

  lemma RenderedIdentity(c: Codec, input: RenderInput, subtype: Option<string>, m: Manifest)
    requires input.draft.anchors != []
    requires m.identityCore == CoreOf(input, subtype)
    requires m.identityHash == IdentityHash(c, IdentityInput(input, subtype))
    requires m.id == MintId(c, IdentityInput(input, subtype))
    ensures IdentityHolds(c, m) <==> Stable(input.draft.anchors[0])
  {
    var a := input.draft.anchors[0];
    NormalizeStableIff(a);
    if Normalize(Normalize(a)) == Normalize(a) {
      assert m.identityCore.(primaryAnchor := Normalize(Normalize(a))) == IdentityInput(input, subtype).(primaryAnchor := Normalize(a));
    }
  }

  lemma EmbeddingInputIff(c: Codec, p: Prose, q: Prose, anchors: seq<AnchorPair>)
    ensures EmbeddingInput(c, p, anchors) == EmbeddingInput(c, q, anchors) <==> EmbeddedProse(p) == EmbeddedProse(q)
  {
    var tail := "\n" + AnchorTail(c, anchors);
    var a, b := EmbeddedProse(p), EmbeddedProse(q);
    assert EmbeddingInput(c, p, anchors) == a + tail && EmbeddingInput(c, q, anchors) == b + tail;
    if a + tail == b + tail {
      assert |a| == |b|;
      assert (a + tail)[..|a|] == a && (b + tail)[..|b|] == b;
    }
  }

  lemma RenderedRecord(c: Codec, input: RenderInput, subtype: Option<string>, parts: seq<Part>, files: Files, m: Manifest)
    requires FrontLawful(c) && input.draft.anchors != [] && SubtypeFits(input.draft.kind, subtype)
    requires
      var record := RecordOf(c, input, subtype);
      && Lookup(files, RECORD) == Some(RecordText(c, record, ProseOf(input)))
      && m == ManifestOf(c, input, subtype, record, parts)
    ensures RecordBinds(c, files, m) <==> SummarySafe(input.draft.summary)
  {
    var record := RecordOf(c, input, subtype);
    RecordReadsBack(c, record, ProseOf(input));
    AnchorPairsShape(input.draft.anchors);
    EmbeddedProseStableIff(ProseOf(input));
    EmbeddingInputIff(c, ParseProse(EmitProse(ProseOf(input))).value, ProseOf(input), record.anchors);
  }

  /** Rows the index reader will take back: also a refused artifact needs a well-formed digest. */
  predicate RowsReadable(copied: seq<ArtifactCopy.CopiedArtifact>, skipped: seq<ArtifactCopy.SkippedArtifact>) {
    && (forall r :: r in copied ==> IsSha(r.ref.sha) && r.stepIndex >= 0)
    && (forall s :: s in skipped ==> IsSha(s.ref.sha) && s.stepIndex >= 0)
  }

  lemma IndexValidIff(copied: seq<ArtifactCopy.CopiedArtifact>, skipped: seq<ArtifactCopy.SkippedArtifact>)
    requires forall r :: r in copied ==> r.relPath == "artifacts/" + r.ref.sha
    ensures ValidArtifacts(RenderArtifactIndex(copied, skipped)) <==> RowsReadable(copied, skipped)
  {
    var index := RenderArtifactIndex(copied, skipped);
    assert forall k :: 0 <= k < |copied| ==> index.artifacts[k] == IndexEntry(copied[k]);
    assert forall k :: 0 <= k < |skipped| ==> index.skipped[k] == SkippedIndexEntry(skipped[k]);
    if ValidArtifacts(index) {
      forall r | r in copied ensures IsSha(r.ref.sha) && r.stepIndex >= 0 {
        var k :| 0 <= k < |copied| && copied[k] == r;
        assert index.artifacts[k] in index.artifacts;
      }
      forall s | s in skipped ensures IsSha(s.ref.sha) && s.stepIndex >= 0 {
        var k :| 0 <= k < |skipped| && skipped[k] == s;
        assert index.skipped[k] in index.skipped;
      }
    }
  }

  lemma RenderedArtifacts(c: Codec, input: RenderInput, files: Files)
    requires PartsLawful(c) && ArtifactsBacked(c, files, input.copied)
    requires Lookup(files, ARTIFACTS_INDEX) == Some(c.artifactsText(RenderArtifactIndex(input.copied, input.skipped)))
    ensures ArtifactsHold(c, files) <==> RowsReadable(input.copied, input.skipped)
  {
    var index := RenderArtifactIndex(input.copied, input.skipped);
    assert forall k :: 0 <= k < |index.artifacts| ==> index.artifacts[k] == IndexEntry(input.copied[k]);
    IndexValidIff(input.copied, input.skipped);
  }

  lemma ArtifactPath(c: Codec, input: RenderInput, record: Frontmatter, path: string)
    requires |path| >= 10 && path[9] == '/'
    ensures path !in PartsMap(HashedParts(c, input, record))
    ensures path != MANIFEST
  {
    PartPositions(c, input, record);
    var parts := HashedParts(c, input, record);
    assert OUTCOMES[9] == 'o' && PROVENANCE[9] == 'e' && RELATIONS[9] == '.' && ARTIFACTS_INDEX[9] == '.';
    assert "observations.jsonl"[9] == 'o' && "evidence/evidence.md"[9] == 'e' && |RECORD| == 9;
    forall j | 0 <= j < |parts| ensures parts[j].relPath != path {
      assert |parts[j].relPath| > 10 ==> parts[j].relPath[9..11][0] == parts[j].relPath[9];
    }
    PartsMapKeys(parts, path);
    assert MANIFEST[9] == 'j';
  }

  /** A manifest that hashes the files it lists, and only those, agrees on content and on mutable state. */
  lemma DigestsAgree(c: Codec, parts: map<string, string>, files: Files, m: Manifest)
    requires m.contentHashes == Digests(c, parts)
    requires forall p :: p in parts ==> p in files && files[p] == parts[p]
    ensures HashesMatch(c, files, m) && ActualDigests(c, files, m) == Digests(c, parts)
  {
  }

  lemma StagedLookup(artifacts: Files, parts: seq<Part>, manifestText: string)
    requires MANIFEST !in PartsMap(parts)
    ensures
      var files := artifacts + PartsMap(parts + [Part(MANIFEST, manifestText)]);
      && Lookup(files, MANIFEST) == Some(manifestText)
      && (forall p :: p in PartsMap(parts) ==> p in files && files[p] == PartsMap(parts)[p])
      && (forall p :: p !in PartsMap(parts) && p != MANIFEST ==> Lookup(files, p) == Lookup(artifacts, p))
  {
    assert (parts + [Part(MANIFEST, manifestText)])[..|parts|] == parts;
  }

  lemma ArtifactsKept(c: Codec, artifacts: Files, input: RenderInput, record: Frontmatter, files: Files)
    requires ArtifactsBacked(c, artifacts, input.copied)
    requires forall p :: p !in PartsMap(HashedParts(c, input, record)) && p != MANIFEST ==> Lookup(files, p) == Lookup(artifacts, p)
    ensures ArtifactsBacked(c, files, input.copied)
  {
    forall k | 0 <= k < |input.copied|
      ensures Lookup(files, input.copied[k].relPath) == Lookup(artifacts, input.copied[k].relPath)
    {
      var path := input.copied[k].relPath;
      assert path == "artifacts/" + input.copied[k].ref.sha;
      assert path[9] == "artifacts/"[9];
      ArtifactPath(c, input, record, path);
    }
  }

  /** The manifest agrees with the files, given what the fixed paths hold. */
  lemma RenderedChecks(c: Codec, input: RenderInput, subtype: Option<string>, parts: seq<Part>, files: Files)
    requires FrontLawful(c) && PartsLawful(c)
    requires input.draft.anchors != [] && SubtypeFits(input.draft.kind, subtype)
    requires HoldsFixed(c, input, RecordOf(c, input, subtype), PartsMap(parts))
    requires forall p :: p in PartsMap(parts) ==> p in files && files[p] == PartsMap(parts)[p]
    requires ArtifactsBacked(c, files, input.copied)
    ensures Agrees(c, files, ManifestOf(c, input, subtype, RecordOf(c, input, subtype), parts)) <==>
            && Stable(input.draft.anchors[0])
            && SummarySafe(input.draft.summary)
            && RowsReadable(input.copied, input.skipped)
  {
    var m := ManifestOf(c, input, subtype, RecordOf(c, input, subtype), parts);
    DigestsAgree(c, PartsMap(parts), files, m);
    MutableOfParts(c, input, RecordOf(c, input, subtype), PartsMap(parts));
    RenderedIdentity(c, input, subtype, m);
    RenderedRecord(c, input, subtype, parts, files, m);
    RenderedProvenance(c, input, files, m);
    RenderedArtifacts(c, input, files);
  }

  /**
   * A freshly staged bundle passes its own integrity check exactly when its primary anchor has a
   * stable normal form, its summary is safe and its artifact rows are readable.
   */
  lemma RenderVerifiedIff(c: Codec, artifacts: Files, input: RenderInput)
    requires Lawful(c) && RenderBundleParts(c, input).Ok? && ArtifactsBacked(c, artifacts, input.copied)
    ensures
      var files := StagedFiles(artifacts, RenderBundleParts(c, input).value);
      && ReadManifest(c, files) == Some(RenderBundleParts(c, input).value.manifest)
      && (Verified(c, files) <==>
          && Stable(input.draft.anchors[0])
          && SummarySafe(input.draft.summary)
          && RowsReadable(input.copied, input.skipped))
  {
    hide Lawful, RenderWith, Verified, StagedFiles, Stable, SummarySafe, RowsReadable, ArtifactsBacked;
    StagedVerified(c, artifacts, input, ValidateIdentityInputs(input.draft, input.discriminant).value);
  }

  lemma StagedVerified(c: Codec, artifacts: Files, input: RenderInput, subtype: Option<string>)
    requires Lawful(c) && input.draft.anchors != [] && SubtypeFits(input.draft.kind, subtype)
    requires ArtifactsBacked(c, artifacts, input.copied)
    ensures
      var r := RenderWith(c, input, subtype);
      var files := StagedFiles(artifacts, r);
      && ReadManifest(c, files) == Some(r.manifest)
      && (Verified(c, files) <==>
          && Stable(input.draft.anchors[0])
          && SummarySafe(input.draft.summary)
          && RowsReadable(input.copied, input.skipped))
  {
    var record := RecordOf(c, input, subtype);
    PartContents(c, input, record);
    var parts := HashedParts(c, input, record);
    var m := ManifestOf(c, input, subtype, record, parts);
    var files := StagedFiles(artifacts, RenderWith(c, input, subtype));
    StagedLookup(artifacts, parts, c.manifestText(m));
    ArtifactsKept(c, artifacts, input, record, files);
    RenderedChecks(c, input, subtype, parts, files);
    ManifestReadsBack(c, files, m);
  }

  lemma ManifestReadsBack(c: Codec, files: Files, m: Manifest)
    requires ManifestLawful(c) && ValidManifest(m) && Lookup(files, MANIFEST) == Some(c.manifestText(m))
    ensures ReadManifest(c, files) == Some(m)
  {
  }

  lemma RenderedProvenance(c: Codec, input: RenderInput, files: Files, m: Manifest)
    requires PartsLawful(c) && m.originClass == input.originClass
    requires Lookup(files, PROVENANCE) == Some(c.provenanceText(input.provenance.(originClass := input.originClass)))
    ensures ProvenanceBinds(c, files, m)
  {
  }

  lemma MutableOfParts(c: Codec, input: RenderInput, record: Frontmatter, parts: map<string, string>)
    requires HoldsFixed(c, input, record, parts)
    ensures
      MutableHash(c, Digests(c, parts)) ==
      c.sha(c.mutableText(MutableParts(
        Some(c.sha(LogText(EventLines(c, input.initialEvents)))),
        Some(c.sha(c.relationsText(input.relations))),
        Some(c.sha(c.artifactsText(RenderArtifactIndex(input.copied, input.skipped)))),
        None, None)))
  {
  }
}
