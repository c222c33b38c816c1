/**
 * A bundle directory as a map from relative path to contents, the documents in it, and what the
 * integrity checker accepts. Serialisers and the digest are parameters (`Codec`); `Lawful` lists the
 * only facts about them that are used.
 */
module BundleModel {
  import opened Prelude
  import opened Lines
  import opened Anchors
  import opened RecordMarkdown
  import opened Outcomes

  type Files = map<string, string>

  const MANIFEST := "manifest.json"
  const RECORD := "record.md"
  const PROVENANCE := "provenance.json"
  const RELATIONS := "relations.json"
  const ARTIFACTS_INDEX := "artifacts.index.json"
  const OUTCOMES := "evidence/outcomes.jsonl"
  const MEASUREMENTS := "evidence/measurements.json"
  const GATES := "evidence/gates.jsonl"
  const OBSERVATIONS := "observations.jsonl"

  datatype BundleKind = Fact | Procedure | Caution | Unknown | Policy

  datatype Scope = Scope(tier: string, key: string)

  datatype IdentityCore = IdentityCore(
    kind: BundleKind,
    subtype: Option<string>,
    primaryAnchor: Anchor,
    scope: Scope,
    discriminantKey: string)

  datatype AnchorPair = AnchorPair(raw: Anchor, normalized: Anchor)

  datatype Frontmatter = Frontmatter(
    id: string,
    kind: BundleKind,
    subtype: Option<string>,
    anchors: seq<AnchorPair>,
    scope: Scope,
    createdAtOrdinal: int,
    originClass: OriginClass,
    evidenceIncomplete: bool)

  datatype Manifest = Manifest(
    id: string,
    identityHash: string,
    identityCore: IdentityCore,
    embeddingInput: string,
    contentHashes: map<string, string>,
    mutableStateHash: string,
    evidenceIncomplete: bool,
    complete: bool,
    createdAtOrdinal: int,
    originClass: OriginClass)

  datatype Provenance =
    | RunLinked(
        originClass: OriginClass,
        runId: string,
        testId: string,
        stepIndex: nat,
        curationJobId: Option<string>,
        sourceBuildOrdinal: Option<int>,
        authorship: Option<string>,
        needsEnrichment: Option<bool>,
        withheld: Option<bool>)
    | Standalone(originClass: OriginClass, sourceDescription: string)

  datatype Relation = Relation(relationType: string, targetId: string, addedAtOrdinal: int, curationJobId: string)

  datatype ArtifactEntry = ArtifactEntry(
    id: string,
    sha: string,
    bytes: nat,
    stepIndex: int,
    relPath: string,
    role: Option<string>,
    originalName: Option<string>)

  datatype SkippedEntry = SkippedEntry(id: string, sha: string, stepIndex: int, path: string, reason: string)

  datatype ArtifactsIndex = ArtifactsIndex(artifacts: seq<ArtifactEntry>, skipped: seq<SkippedEntry>)

  datatype PromotionPath = DeterministicVerdictFloor | UserSovereign

  /** A line of the gate log: a gate receipt or a promotion receipt. */
  datatype GateLine =
    | GateReceipt(candidateId: string, producedAtOrdinal: nat, detail: string, receiptDigest: string)
    | PromotionReceipt(
        candidateId: string,
        producedAtOrdinal: nat,
        promotionPath: PromotionPath,
        citedReceiptDigests: seq<string>,
        receiptDigest: string)

  /** The digests that `mutableStateHash` covers; an optional part that is absent is left out. */
  datatype MutableParts = MutableParts(
    outcomes: Option<string>,
    relations: Option<string>,
    artifactsIndex: Option<string>,
    measurements: Option<string>,
    gates: Option<string>)

  datatype Codec = Codec(
    sha: string -> string,
    textOfSha: string -> string,
    identityText: IdentityCore -> string,
    slug: (BundleKind, Anchor) -> string,
    anchorLine: Anchor -> string,
    mutableText: MutableParts -> string,
    frontLines: Frontmatter -> seq<string>,
    parseFront: seq<string> -> Option<Frontmatter>,
    manifestText: Manifest -> string,
    parseManifest: string -> Option<Manifest>,
    provenanceText: Provenance -> string,
    parseProvenance: string -> Option<Provenance>,
    relationsText: seq<Relation> -> string,
    parseRelations: string -> Option<seq<Relation>>,
    artifactsText: ArtifactsIndex -> string,
    parseArtifacts: string -> Option<ArtifactsIndex>,
    eventText: Event -> string,
    parseEvent: string -> Option<Event>,
    gateBody: GateLine -> string,
    gateText: GateLine -> string,
    parseGate: string -> Option<GateLine>,
    baselineText: string -> string,
    parseBaseline: string -> Option<string>,
    observationText: string -> string,
    parseObservation: string -> Option<string>)

  predicate SubtypeFits(kind: BundleKind, subtype: Option<string>) { kind.Fact? <==> subtype.Some? }

  predicate ValidManifest(m: Manifest) {
    MANIFEST !in m.contentHashes && SubtypeFits(m.identityCore.kind, m.identityCore.subtype)
  }

  predicate ValidFront(f: Frontmatter) { SubtypeFits(f.kind, f.subtype) }

  predicate IsHex(c: char) { '0' <= c <= '9' || 'a' <= c <= 'f' }

  /** A lower-case SHA-256 hex digest. */
  predicate IsSha(s: string) { |s| == 64 && forall i :: 0 <= i < |s| ==> IsHex(s[i]) }

  /** What the index reader accepts: well-formed digests and step indices, also in the skipped rows. */
  predicate ValidArtifacts(i: ArtifactsIndex) {
    && (forall a :: a in i.artifacts ==> IsSha(a.sha) && a.stepIndex >= 0 && a.relPath == "artifacts/" + a.sha)
    && (forall s :: s in i.skipped ==> IsSha(s.sha) && s.stepIndex >= 0)
  }

  /** No two texts share a digest: the digest has a left inverse. */
  ghost predicate ShaSeparates(c: Codec) { forall a :: c.textOfSha(c.sha(a)) == a }

  ghost predicate FrontLawful(c: Codec) {
    && (forall f :: c.frontLines(f) != [] && forall l :: l in c.frontLines(f) ==> FenceSafe(l))
    && (forall f :: ValidFront(f) ==> c.parseFront(c.frontLines(f)) == Some(f))
    && (forall t :: c.parseFront(t).Some? ==> ValidFront(c.parseFront(t).value))
  }

  ghost predicate ManifestLawful(c: Codec) {
    && (forall m :: ValidManifest(m) ==> c.parseManifest(c.manifestText(m)) == Some(m))
    && (forall t :: c.parseManifest(t).Some? ==> ValidManifest(c.parseManifest(t).value))
  }

  ghost predicate PartsLawful(c: Codec) {
    && (forall p :: c.parseProvenance(c.provenanceText(p)) == Some(p))
    && (forall r :: c.parseRelations(c.relationsText(r)) == Some(r))
    && (forall i :: c.parseArtifacts(c.artifactsText(i)) == if ValidArtifacts(i) then Some(i) else None)
    && (forall t :: c.parseArtifacts(t).Some? ==> ValidArtifacts(c.parseArtifacts(t).value))
  }

  ghost predicate LinesLawful(c: Codec) {
    && (forall e :: NoNewline(c.eventText(e)) && c.parseEvent(c.eventText(e)) == Some(e))
    && (forall g :: NoNewline(c.gateText(g)) && c.parseGate(c.gateText(g)) == Some(g))
    && (forall b :: NoNewline(c.baselineText(b)) && c.parseBaseline(c.baselineText(b)) == Some(b))
    && (forall o :: NoNewline(c.observationText(o)) && c.parseObservation(c.observationText(o)) == Some(o))
  }

  /** Canonical JSON writes different values differently. */
  ghost predicate HashedLawful(c: Codec) {
    && (forall a, b :: c.identityText(a) == c.identityText(b) ==> a == b)
    && (forall a, b :: c.mutableText(a) == c.mutableText(b) ==> a == b)
    && (forall a, b :: c.gateBody(a) == c.gateBody(b) ==> a == b)
  }

  /** Readers undo writers, log lines are single lines, and the digest separates texts. */
  ghost predicate Lawful(c: Codec) {
    && ShaSeparates(c) && HashedLawful(c)
    && FrontLawful(c) && ManifestLawful(c) && PartsLawful(c) && LinesLawful(c)
  }

  // ----- identity -----

  const ID_HASH_SUFFIX_LENGTH := 16

  /** `computeBundleIdentityHash`: the anchor is normalised before hashing. */
  function IdentityHash(c: Codec, core: IdentityCore): string {
    c.sha(c.identityText(core.(primaryAnchor := Normalize(core.primaryAnchor))))
  }

  function MintId(c: Codec, core: IdentityCore): string {
    c.slug(core.kind, Normalize(core.primaryAnchor)) + "-" + Take(IdentityHash(c, core), ID_HASH_SUFFIX_LENGTH)
  }

  /** `verifyManifestIdentity` finds nothing. */
  predicate IdentityHolds(c: Codec, m: Manifest) {
    && Normalize(m.identityCore.primaryAnchor) == m.identityCore.primaryAnchor
    && IdentityHash(c, m.identityCore) == m.identityHash
    && MintId(c, m.identityCore) == m.id
  }

  // ----- parts -----

  function AnchorTail(c: Codec, anchors: seq<AnchorPair>): string {
    if anchors == [] then "" else "\n" + c.anchorLine(anchors[0].raw) + AnchorTail(c, anchors[1..])
  }

  /** `renderEmbeddingInput`. */
  function EmbeddingInput(c: Codec, p: Prose, anchors: seq<AnchorPair>): string {
    EmbeddedProse(p) + "\n" + AnchorTail(c, anchors)
  }

  function RecordText(c: Codec, f: Frontmatter, p: Prose): string { EmitText(c.frontLines(f), p) }

  function ParseRecord(c: Codec, text: string): Option<(Frontmatter, Prose)> {
    match ParseText(text)
    case None => None
    case Some((lines, prose)) =>
      match c.parseFront(lines)
      case None => None
      case Some(f) => Some((f, prose))
  }

  lemma RecordReadsBack(c: Codec, f: Frontmatter, p: Prose)
    requires FrontLawful(c) && ValidFront(f)
    ensures ParseProse(EmitProse(p)).Some?
    ensures ParseRecord(c, RecordText(c, f, p)) == Some((f, ParseProse(EmitProse(p)).value))
  {
    ParsedText(c.frontLines(f), p);
  }

  function Lookup(m: map<string, string>, path: string): Option<string> {
    if path in m then Some(m[path]) else None
  }

  function MutableHash(c: Codec, hashes: map<string, string>): string {
    c.sha(c.mutableText(MutableParts(
      Lookup(hashes, OUTCOMES), Lookup(hashes, RELATIONS), Lookup(hashes, ARTIFACTS_INDEX),
      Lookup(hashes, MEASUREMENTS), Lookup(hashes, GATES))))
  }

  function ReadManifest(c: Codec, files: Files): Option<Manifest> {
    if MANIFEST in files then c.parseManifest(files[MANIFEST]) else None
  }

  function ReadRecord(c: Codec, files: Files): Option<(Frontmatter, Prose)> {
    if RECORD in files then ParseRecord(c, files[RECORD]) else None
  }

  function ReadProvenance(c: Codec, files: Files): Option<Provenance> {
    if PROVENANCE in files then c.parseProvenance(files[PROVENANCE]) else None
  }

  function ReadArtifacts(c: Codec, files: Files): Option<ArtifactsIndex> {
    if ARTIFACTS_INDEX in files then c.parseArtifacts(files[ARTIFACTS_INDEX]) else None
  }

  // ----- what the checker accepts -----

  predicate RecordBinds(c: Codec, files: Files, m: Manifest) {
    match ReadRecord(c, files)
    case None => false
    case Some((f, prose)) =>
      && f.id == m.id
      && f.kind == m.identityCore.kind
      && f.subtype == m.identityCore.subtype
      && f.scope == m.identityCore.scope
      && f.anchors != [] && f.anchors[0].normalized == m.identityCore.primaryAnchor
      && f.createdAtOrdinal == m.createdAtOrdinal
      && f.originClass == m.originClass
      && f.evidenceIncomplete == m.evidenceIncomplete
      && EmbeddingInput(c, prose, f.anchors) == m.embeddingInput
  }

  predicate ProvenanceBinds(c: Codec, files: Files, m: Manifest) {
    match ReadProvenance(c, files)
    case None => false
    case Some(p) => p.originClass == m.originClass
  }

  predicate HashesMatch(c: Codec, files: Files, m: Manifest) {
    forall p :: p in m.contentHashes ==> p in files && c.sha(files[p]) == m.contentHashes[p]
  }

  function ActualDigests(c: Codec, files: Files, m: Manifest): map<string, string> {
    map p | p in m.contentHashes && p in files :: c.sha(files[p])
  }

  predicate ArtifactsHold(c: Codec, files: Files) {
    match ReadArtifacts(c, files)
    case None => false
    case Some(index) =>
      forall k :: 0 <= k < |index.artifacts| ==>
        && index.artifacts[k].relPath in files
        && c.sha(files[index.artifacts[k].relPath]) == index.artifacts[k].sha
        && |files[index.artifacts[k].relPath]| == index.artifacts[k].bytes
  }

  /** The manifest agrees with every other part and is complete. */
  predicate Agrees(c: Codec, files: Files, m: Manifest) {
    && IdentityHolds(c, m)
    && RecordBinds(c, files, m)
    && ProvenanceBinds(c, files, m)
    && m.complete
    && HashesMatch(c, files, m)
    && MutableHash(c, ActualDigests(c, files, m)) == m.mutableStateHash
    && ArtifactsHold(c, files)
  }

  predicate Verified(c: Codec, files: Files) {
    ReadManifest(c, files).Some? && Agrees(c, files, ReadManifest(c, files).value)
  }

  lemma MatchingDigests(c: Codec, files: Files, m: Manifest)
    requires HashesMatch(c, files, m)
    ensures ActualDigests(c, files, m) == m.contentHashes
  {
  }

  /** A verified bundle is exactly what its manifest commits to: another text for any hashed part fails. */
  lemma TamperDetected(c: Codec, files: Files, path: string, text: string)
    requires ShaSeparates(c) && ManifestLawful(c) && Verified(c, files)
    requires path in ReadManifest(c, files).value.contentHashes && files[path] != text
    ensures !Verified(c, files[path := text])
  {
    var m := ReadManifest(c, files).value;
    assert path != MANIFEST;
    assert ReadManifest(c, files[path := text]) == Some(m);
    assert c.textOfSha(c.sha(text)) == text;
    assert c.sha(files[path := text][path]) != m.contentHashes[path];
    assert !HashesMatch(c, files[path := text], m);
  }
}
