# A verified model of the local knowledge store

This project models the local knowledge store of `packages/knowledge-local`, together with the parts of
`packages/schema` that fix its formats, and two smaller components with laws of their own
(`packages/cli/src/config.ts`, `packages/analytics/src/run-subscriber.ts`). Everything is proved for all
inputs, all runs and all interleavings; `dafny verify dfyconfig.toml` checks the whole project.

## What is modelled

A *bundle* is a directory of text parts: `record.md`, `provenance.json`, `relations.json`, an outcome log, a
gate log, measurements, artifacts, and a manifest that hashes every other part. Bundles are rendered, staged,
made visible by one rename and then changed only by appends and enrichment, each committed through a
crash-safe journal. An *index* with an optional vector table speeds up searching; it is disposable, and every
hit it produces is checked against the bundle before it is served. Three folds read the store: garbage
collection, the change feed and the graph derivation.

| files | component |
|---|---|
| `Anchors`, `RecordMarkdown`, `Lines`, `Outcomes` | the formats: anchor normal form, `record.md`, log framing, outcome events and the trust fold |
| `BundleModel`, `BundleParts`, `ArtifactCopy`, `BundleVerify` | rendering, artifact copying under byte budgets, and the independent integrity check |
| `BundleAppend`, `BundleLogs`, `BundleStore`, `BundleLoad` | every mutation of a bundle, as a plan, as methods on a directory with a journal, and as runs |
| `Publish`, `PublishRace` | staging, finalizing and discarding, by one writer and by any number of writers in any order |
| `IndexState`, `IndexWriter`, `DenseSearch`, `IndexAgreement` | the index as a state machine, the writer's methods, and both dense searches |
| `Reader` | the recheck, the scan and the reader facade |
| `AnchorMeaning`, `TrustMeaning`, `MutableState`, `RenderMeaning`, `VerifiedMeaning`, `CopyMeaning`, `AppendMeaning` | what each specification of a bundle means, said a second time without its machinery, and proved equal |
| `IndexMeaning`, `DenseMeaning`, `ReaderAnswers`, `FeedMeaning`, `GcMeaning`, `GraphMeaning`, `RunMeaning` | the same for the index, the answers, the feed, collection, graph and run reports |
| `Specimens`, `IndexFailures`, `ReaderFaces` | real verified bundles, and the runs and disks on which a promise fails |
| `DiffSince`, `Gc`, `GcResume`, `GraphDerive`, `GraphBridges` | the folds over the store |
| `Config`, `LoadLock`, `RunSubscriber` | configuration layers, the model-load lock and the run-completion fold |
| `CodecExists` | instances of everything that is assumed: a lawful codec, a verified bundle, separating node ids and supersession keys |
| `Prelude`, `StableSort`, `TextOrder`, `TextSets` | sequences, stable insertion sort, text order, sets as sorted lists |

Code that changes things step by step is a class or a looping method, proved against a specification function;
the laws are lemmas about that function. A file system is a map from path to text. Hashing, canonical JSON and
the document readers form a `Codec` value: its functions are arbitrary, and the laws a result needs are named
in its `requires` (`ShaSeparates`: different texts have different digests; `ManifestLawful`, `PartsLawful`,
`LinesLawful`, `FrontLawful`: reading what was written gives it back, and canonical JSON contains no raw
newline, as section 7 of RFC 8259 requires; `HashedLawful`: what is hashed is written differently when it
differs). `CodecExists` builds a codec that obeys all of them at once, and a verified bundle for every such
codec, so that no theorem holds only for want of instances.

## What turned out not to hold

The proofs follow the code. Where a promise of the repository fails, a lemma gives an input and another gives
the exact condition.

1. Anchor normalisation is not idempotent. A route may keep a space before its `#`, before its trailing
   slashes or at the end of a query that `#` cuts, and a name may carry two badges; these are all the failing
   anchors (`Anchors.NormalizeStableIff`, `Anchors.SpacedFragmentUnstable`, `Anchors.SpacedSlashUnstable`,
   `Anchors.TwoBadgesUnstable`). Exactly when its first anchor is one of them, a freshly published bundle fails
   its own integrity check (`BundleParts.RenderVerifiedIff`), and publishing it again reads it as corrupt
   (`PublishRace.RepublishIff`). As a later anchor it is verified, and then the index finds it and the scan,
   which normalises the query twice, does not (`ReaderFaces.UnstableAnchorLost`,
   `ReaderFaces.AnchorFacesAgreeIff`).
2. A summary that contains the detail separator does not survive `record.md`
   (`RecordMarkdown.EmbeddedProseStableIff`), so publishing or enriching with it leaves a bundle that fails its
   check (`BundleAppend.StepVerifiedIff`).
3. A current vector-cleanup marker does not imply that the vector table equals the records. A rendering
   refresh withdraws an embedding and leaves its vector row, and a bundle that moves to another product keeps
   its row under the old one; reconciliation repairs the first and never the second
   (`IndexState.StrictKeptIff`, `IndexState.ProductsKeptIff`, `IndexState.ReconcileExactIff`).
   `IndexFailures.StrandedRun` and `IndexFailures.MovedRun` are such runs from an empty index, each ending with
   a vector search that misses a record the brute search finds. What the marker does guarantee on every run is
   `IndexState.RunSound`, and it is enough that no hit is wrong (`DenseSearch.SoundHitsAreTrue`).
4. A reader that meets the first gate or measurement line before its manifest accepts the half-written bundle
   (`BundleStore.FirstLineSlipsThrough`); `BundleStore.TornVerifiedIff` says exactly when that happens.
5. Appending a measurement observation is not idempotent (`BundleLogs.ObservationAppended`). A relation key
   identifies its relation exactly when neither the target nor the job contains a colon
   (`BundleLogs.KeyIdentifiesIff`); for every other logged relation there is a different one that is refused as
   its duplicate (`BundleLogs.RelationLost`).
6. A garbage collection that is run again can trim more when a removed record was what kept another in the
   chain of another supersession key (`GcResume.CrossedChainsTrimMore`, `GcResume.CrossedChainsHappen`).
   `GcResume.RankedRemainingIff` says of each chain exactly when a removal leaves it as it was, and
   `GcResume.AnchoredIff` when every interruption of a plan does; the rerun is then exact.
7. Configuration attribution asks `key in flat`, so a bare key that every object inherits is always attributed
   to the flags (`Config.InheritedNameMisattributed`, `Config.SourceNamedIff`).
8. The writer reads the rendering stamp as a number and the maintenance inspection reads it as text; they
   disagree exactly on other spellings of the current version, such as `2.0`
   (`IndexWriter.StaleReadingIff`, `IndexFailures.MisreadSpelling`, `IndexFailures.DecimalSpelling`).
9. The change schema is stricter than the bundle schemas (`DiffSince.BundleAcceptedIff`). One verified bundle
   of a run whose id is the empty text makes the whole feed fail from the start
   (`DiffSince.NamelessRunStopsTheFeed`); `DiffSince.FeedReadableIff` says exactly when a feed can be read.
10. A scan serves a bundle from a directory that does not carry its id, and one whose observation log is
    malformed; the recheck drops both (`ReaderFaces.MisnamedDirectoryDropped`,
    `ReaderFaces.MalformedLogDropped`, and the exact condition in `ReaderFaces.ScannedHitRechecksIff`).
11. A model load that failed is remembered for the lifetime of the process (`LoadLock.OneLoadPerKey`).
12. Settling a refused rename throws, and keeps the staging tree, exactly when the bundle that refused it has
    disappeared in the meantime (`PublishRace.SettleKeepsTreeIff`, and a run in `PublishRace.RethrownRun`). The
    tree is then the caller's: it stays until the caller discards it (`PublishRace.FinishedLeavesNothing`), and
    discarding it is final (`PublishRace.DiscardedForGood`).
13. The index skips a bundle whose mutable-state hash has not moved. An operation moves it exactly when it is
    answered as an append (`MutableState.StepMovesHashIff`), so an enrichment whose event is logged already
    rewrites the prose unnoticed (`MutableState.EnrichmentUnseen`, `MutableState.AskingSpecimen`).

## Model

| member | source | states |
|---|---|---|
| `Anchors.NormalizeStableIff` | packages/schema/src/identity/normalize-anchor.ts:4-41 | for every anchor, normalising twice gives what normalising once gives if and only if the cleaned route, cut at its `#`, does not end in a space (nor, without a query, in a space and slashes) and the cleaned name has no badge in front of its last one |
| `Anchors.StableFormIff` | packages/schema/src/identity/normalize-anchor.ts:4-41 | that condition on the input holds if and only if the normal form has no space at the end of its route and no badge left on its name |
| `Anchors.SpacedFragmentUnstable` | packages/schema/src/identity/normalize-anchor.ts:8-17 | every clean route with a space before its `#` keeps that space, and a second pass removes it |
| `Anchors.TwoBadgesUnstable` | packages/schema/src/screen/normalize-name.ts:6-11 | every name with two trailing numbers loses one per pass |
| `Anchors.SpacedSlashUnstable` | packages/schema/src/identity/normalize-anchor.ts:8-17 | every clean route that ends in a space and a slash keeps that space, and a second pass removes it; no `#` is needed |
| `Anchors.UnstableRoute` | packages/schema/src/identity/normalize-anchor.ts:8-17 | the concrete input `a #b`, whose normal form is not a normal form |
| `AnchorMeaning.HumanTextIs` | packages/schema/src/identity/normalize-anchor.ts:4-6 | the cleaned form of a text is exactly its words, each lower-cased, with one space between them |
| `AnchorMeaning.RouteIs` | packages/schema/src/identity/normalize-anchor.ts:8-17 | a cleaned route is path, trailing slashes, query and fragment, and its normal form is path and query; the root keeps its slash |
| `AnchorMeaning.RoutePartsUnique` | packages/schema/src/identity/normalize-anchor.ts:8-17 | there is only one such reading of a cleaned route |
| `AnchorMeaning.BadgeIff` | packages/schema/src/screen/normalize-name.ts:1-11 | the badge of a cleaned name starts exactly where a bullet, a bracket of one shape with spaces and at least one digit, or a space and digits reach to its end |
| `AnchorMeaning.NameIs` | packages/schema/src/screen/normalize-name.ts:6-11 | an accessible name is the words of the text without that badge and what space stood before it, in lower case |
| `AnchorMeaning.NumberIs` | packages/schema/src/identity/normalize-anchor.ts:38-40 | whatever number stands in an error message, one `#` stands there in its normal form, and the rest is as it would be |
| `AnchorMeaning.KindKept` | packages/schema/src/identity/normalize-anchor.ts:20-41 | normalising keeps the kind of an anchor, the ordinal of an element, a whole platform and the words of a selector |
| `RecordMarkdown.ParsedProse` | packages/schema/src/knowledge/record-frontmatter.ts:193-208 | for every prose, what the section reader returns for emitted prose: the summary up to the first separator and everything after it as body |
| `RecordMarkdown.ProseRoundTripIff` | packages/schema/src/knowledge/record-frontmatter.ts:118-209 | emit then parse gives the prose back if and only if the first section separator of summary plus separator is the final one |
| `RecordMarkdown.ParsedText` | packages/schema/src/knowledge/record-frontmatter.ts:133-192 | the frontmatter lines survive emit then parse whatever the prose is, because no line opens a fence |
| `RecordMarkdown.EmbeddedProseStableIff` | packages/schema/src/knowledge/embedding-input.ts:25-40 | the prose read back renders the embedding input of the prose written if and only if what follows the first separator in the summary is that heading repeated |
| `RecordMarkdown.QuotedSeparator` | packages/schema/src/knowledge/record-frontmatter.ts:199-207 | a summary that quotes the separator is unsafe; one that quotes only the heading is safe |
| `Lines.LogRoundTrip` | packages/knowledge-local/src/bundle-read.ts:84-100 | reading a log text gives back the lines it was written from |
| `Lines.LogLinesInverse` | packages/knowledge-local/src/bundle-read.ts:84-100 | any text the reader accepts is exactly the framing of the lines returned |
| `Outcomes.DedupeEvents` | packages/schema/src/knowledge/outcome-event.ts:91-103 | the loop keeps the first event of each key, as the recursive specification does |
| `Outcomes.SurvivingOutcomeEvents` | packages/schema/src/knowledge/outcome-event.ts:111-141 | the two passes compute the survivors of the specification |
| `Outcomes.ReplayIsInert` | packages/schema/src/knowledge/outcome-event.ts:91-141 | appending an event whose key is already logged changes no survivor |
| `Outcomes.FreshEffect` | packages/schema/src/knowledge/outcome-event.ts:111-141 | a fresh effect event adds itself to the survivors exactly when no logged retraction or overturn names it, and changes no other |
| `Outcomes.RetractionCancels` | packages/schema/src/knowledge/outcome-event.ts:111-141 | a fresh retraction removes exactly the survivors filed under the key it names |
| `Outcomes.RetractedRetractionStands` | packages/schema/src/knowledge/outcome-event.ts:111-141 | retracting a retraction revives nothing |
| `Outcomes.FoldBundleTrust` | packages/schema/src/knowledge/trust-fold.ts:61-158 | the loop returns the recursive fold, and that is the summary of a fold in which the counters count the survivors of each kind, the status is the one no survivor outranks by ordinal then precedence, the close is the latest, and the confirmation the last; the trust is exactly prior plus weighted support over prior, one, and all weighted evidence |
| `Outcomes.FoldDescribes` | packages/schema/src/knowledge/trust-fold.ts:47-158 | over every list of events the left-to-right fold has that order-free description |
| `Outcomes.TrustOrderFree` | packages/schema/src/knowledge/trust-fold.ts:61-158 | two logs with the same multiset of survivors give the same trust state |
| `Outcomes.SupersededHasEvent` | packages/schema/src/knowledge/trust-fold.ts:47-58 | a record reads as superseded only if a superseding event of its own log survives |
| `Outcomes.TrustMoves` | packages/schema/src/knowledge/trust-fold.ts:137-144 | trust rises with every confirmation and helpful mark and falls with every contradiction and harmful one |
| `Outcomes.FreshTrust` | packages/schema/src/knowledge/trust-fold.ts:137-144 | a record of which nothing is known has trust 3/4, 2/3, 1/2 or 1/3 by origin, and 3/5, 1/2, 1/3 or 1/5 when evidence is missing |
| `TrustMeaning.SurvivingIff` | packages/schema/src/knowledge/outcome-event.ts:91-141 | an event counts if and only if it is the first of its token and job, no audit line, and named by no first retraction, nor, if it is an observation, by a first overturning |
| `TrustMeaning.StatusIs` | packages/schema/src/knowledge/trust-fold.ts:47-135 | the status is decided at the last turn in the life of a record, its creation included: a promotion there wins, then the creation, then a supersession, then a deprecation |
| `TrustMeaning.ClosedIff` | packages/schema/src/knowledge/trust-fold.ts:99-156 | the window opens at creation and is closed if and only if some closing line survives, as the one of the latest build and then the latest closing says |
| `TrustMeaning.CountersAre` | packages/schema/src/knowledge/trust-fold.ts:79-98 | each counter is the number of surviving observations of its kind |
| `TrustMeaning.LastConfirmedIs` | packages/schema/src/knowledge/trust-fold.ts:82-88 | the last confirmation is the latest surviving one, or the creation when there is none |
| `BundleModel.TamperDetected` | packages/knowledge-local/src/bundle-read.ts:310-386 | changing the text of any part the manifest hashes makes a verified bundle fail |
| `MutableState.MutableHashIff` | packages/knowledge-local/src/bundle-append.ts:136-146 | two lists of content hashes have one mutable-state hash if and only if they agree, presence included, on outcomes, relations, artifact index, measurements and gates |
| `MutableState.IdentityHashIff` | packages/schema/src/ids/content-address.ts:116-125 | two identities have one hash if and only if kind, subtype, scope and discriminant agree and the anchors have one normal form |
| `MutableState.GateDigestIff` | packages/schema/src/knowledge/gate-receipt.ts:61-67 | two gate lines have one digest if and only if they agree in every field but the digest |
| `MutableState.StepMovesHashIff` | packages/knowledge-local/src/bundle-append.ts:136-178 | an operation on a verified bundle changes its mutable-state hash if and only if it is answered as an append (or enriches a bundle whose manifest does not list its log) |
| `MutableState.EnrichmentUnseen` | packages/knowledge-local/src/index-rebuild.ts:1290-1312 | for every verified bundle that asks for it: an enrichment whose event is logged already rewrites prose and embedding input, stays verified, and keeps the hash by which a rebuild skips a bundle |
| `MutableState.AskingSpecimen` | packages/knowledge-local/src/bundle-append.ts:288-357 | such bundles exist for every run and every stable anchor |
| `BundleParts.RenderVerifiedIff` | packages/knowledge-local/src/bundle-parts.ts:177-289 | a freshly staged bundle passes its integrity check if and only if its first anchor has a stable normal form, its summary is safe and its artifact rows are readable |
| `RenderMeaning.RefusedIff` | packages/knowledge-local/src/bundle-parts.ts:177-200 | a request is refused if and only if it has no anchor, its discriminant is of another kind or subtype, a fact has no subtype, or anything else has one |
| `RenderMeaning.PartsAre` | packages/knowledge-local/src/bundle-parts.ts:227-262 | for every path and text: the rendered bundle has that part if and only if it is one of the eight kinds of part, rendered from its own piece of the request |
| `RenderMeaning.RenderedCarries` | packages/knowledge-local/src/bundle-parts.ts:202-283 | record and manifest carry every field of the request and the normal form of every anchor, and the manifest lists every other part and nothing else |
| `RenderMeaning.LoadedSays` | packages/knowledge-local/src/bundle-read.ts:158-230 | a staged bundle that loads reads, document by document and row by row, as its request |
| `RenderMeaning.EmbeddedLines` | packages/schema/src/knowledge/embedding-input.ts:25-39 | the embedding input is the lines of summary, blank, body, blank, and one line for each anchor as given |
| `BundleVerify.VerifyManifestIdentity` | packages/schema/src/knowledge/manifest-identity.ts:22-46 | reports exactly the identity violations that hold |
| `BundleVerify.VerifyRecord` | packages/knowledge-local/src/bundle-read.ts:250-294 | reports exactly the violations of the record binding |
| `BundleVerify.VerifyProvenance` | packages/knowledge-local/src/bundle-read.ts:296-307 | reports exactly the violations of the provenance binding |
| `BundleVerify.VerifyDigests` | packages/knowledge-local/src/bundle-read.ts:334-342 | reports exactly the listed parts that are missing or hash differently, and returns the digests it saw |
| `BundleVerify.VerifyArtifacts` | packages/knowledge-local/src/bundle-read.ts:357-383 | reports exactly the artifact rows whose file is missing or has another hash or length |
| `BundleVerify.VerifyBundleIntegrity` | packages/knowledge-local/src/bundle-read.ts:310-386 | its report is empty exactly for the bundles that agree with their manifest in every part, and lists exactly the violations that hold |
| `BundleVerify.AcceptedIff` | packages/knowledge-local/src/bundle-read.ts:245-386 | no listed violation holds if and only if the declarative agreement of manifest, parts, record, provenance and artifacts holds |
| `VerifiedMeaning.VerifiedIff` | packages/knowledge-local/src/bundle-read.ts:245-386 | a bundle is verified if and only if its four documents read, the manifest is complete, is the identity its core hashes to, lists parts that are there as listed and hashes the mutable state of its list, record and provenance repeat it fact by fact, and every artifact row has its file |
| `ArtifactCopy.ArtifactDirectory.CopyArtifact` | packages/knowledge-local/src/artifact-copy.ts:99-162 | one loop turn: mutated directory and both budgets are those of the one-step specification |
| `ArtifactCopy.ArtifactDirectory.CopyArtifacts` | packages/knowledge-local/src/artifact-copy.ts:87-165 | the loop over the mutable directory ends in the directory, rows and evidence flag of the run specification |
| `ArtifactCopy.CopyLaws` | packages/knowledge-local/src/artifact-copy.ts:87-165 | over any inputs: one row each in order, existing files unchanged, every copied row backed by a file of its hash and length, and new bytes inside the cap of every step and of the run |
| `ArtifactCopy.StepsSumToRun` | packages/knowledge-local/src/artifact-copy.ts:136-161 | the per-step totals of written bytes add up to the run total |
| `CopyMeaning.CopiedIff` | packages/knowledge-local/src/artifact-copy.ts:99-162 | a genuine artifact is copied if and only if its bytes are under their name already, or nothing is and they fit step and run; the row counts exactly the new bytes |
| `CopyMeaning.RefusedIff` | packages/knowledge-local/src/artifact-copy.ts:99-162 | each refusal is given for its own reason and no other, and a read fault ends the run |
| `CopyMeaning.TurnChanges` | packages/knowledge-local/src/artifact-copy.ts:99-162 | a turn spends exactly what it writes, on its step and the run, and adds at most the file it names |
| `BundleAppend.StepVerifiedIff` | packages/knowledge-local/src/bundle-append.ts:52-398 | one operation on a verified bundle leaves a verified bundle, except that an enrichment does so if and only if its summary is safe; identity and frontmatter never change |
| `BundleAppend.RunVerified` | packages/knowledge-local/src/bundle-append.ts:52-398 | after every sequence of safe operations a verified bundle is verified and has the same identity |
| `BundleAppend.AppendKeepsVerified` | packages/knowledge-local/src/bundle-append.ts:136-201 | replacing any append-only part together with the rewritten manifest keeps content hashes, mutable-state hash, bindings and artifacts true |
| `BundleAppend.EnrichVerifiedIff` | packages/knowledge-local/src/bundle-append.ts:288-357 | rewriting record, provenance, log and manifest together verifies if and only if the new summary is safe |
| `BundleLogs.LogAppend` | packages/knowledge-local/src/bundle-append.ts:203-234 | parsing a log after one line was appended gives the old entries and the new one |
| `BundleLogs.OutcomeAppended` | packages/knowledge-local/src/bundle-append.ts:214-234 | a logged key writes nothing; a fresh one makes the log text the old text plus one line, the events the old events plus one, keeps keys distinct, touches no other part and is a duplicate when repeated |
| `BundleLogs.GateAppended` | packages/knowledge-local/src/bundle-append.ts:52-95 | the same for gate and promotion lines, keeping digests distinct and at most one promotion per path |
| `BundleLogs.EnrichedOnce` | packages/knowledge-local/src/bundle-append.ts:288-357 | once enriched, no later operation of any run enriches the bundle again |
| `BundleLogs.EnrichmentRepeat` | packages/knowledge-local/src/bundle-append.ts:288-357 | repeating an enriched append writes nothing |
| `BundleLogs.RelationRepeat` | packages/knowledge-local/src/bundle-append.ts:359-398 | a relation whose key is known writes nothing; another makes the list the old list plus that relation, and repeating it writes nothing |
| `BundleLogs.BaselineRepeat` | packages/knowledge-local/src/bundle-append.ts:237-257 | a first baseline is the one read back, with no observation; any baseline over an existing one writes nothing |
| `BundleLogs.ObservationAppended` | packages/knowledge-local/src/bundle-append.ts:263-285 | an observation is appended every time: repeating it is not idempotent |
| `BundleLogs.KeySeparates` | packages/schema/src/knowledge/outcome-event.ts:86-89 | keys built from tokens without a colon are equal exactly when both their parts are |
| `BundleLogs.RelationKeySeparates` | packages/knowledge-local/src/bundle-append.ts:359-361 | for enumerated types and targets without a colon, two relation keys are equal if and only if type, target and job are |
| `BundleLogs.KeyIdentifiesIff` | packages/knowledge-local/src/bundle-append.ts:359-361 | the key of a relation is the key of no other relation of an enumerated type if and only if neither its target nor its job contains a colon |
| `BundleLogs.RelationLost` | packages/knowledge-local/src/bundle-append.ts:359-398 | for every logged relation with a colon in its target or job there is a different relation of the same type that the append answers as a duplicate and does not write |
| `BundleLogs.RelationKeyAmbiguous` | packages/knowledge-local/src/bundle-append.ts:359-361 | the shortest such pair: `a:b` for job `c`, and `a` for job `b:c` |
| `AppendMeaning.AnswerIs` | packages/knowledge-local/src/bundle-append.ts:52-398 | for every operation and directory: exactly when it throws, finds nothing, is a repeat or goes through, and when it enriches |
| `AppendMeaning.EnrichmentWritten` | packages/knowledge-local/src/bundle-append.ts:288-357 | an enrichment writes the new prose under the old frontmatter, settles the provenance and nothing else in it, logs its event once, and touches no other part but the manifest |
| `BundleStore.BundleDirectory.ApplyJournal` | packages/knowledge-local/src/journal/bundle-mutation.ts:215-250 | replays from the first replacement; a crash leaves exactly a prefix applied and the journal in place |
| `BundleStore.BundleDirectory.CommitBundleMutation` | packages/knowledge-local/src/journal/bundle-mutation.ts:271-354 | commits all replacements and drops the journal, or leaves a replayable one |
| `BundleStore.BundleDirectory.RewriteBundleFile` | packages/knowledge-local/src/bundle-append.ts:181-201 | commits one part with the manifest last |
| `BundleStore.BundleDirectory.AppendGateReceiptLine` | packages/knowledge-local/src/bundle-append.ts:52-68 | on the mutable directory: realises the planned operation, crash or not |
| `BundleStore.BundleDirectory.AppendPromotion` | packages/knowledge-local/src/bundle-append.ts:71-95 | the same for a promotion line |
| `BundleStore.BundleDirectory.AppendOutcome` | packages/knowledge-local/src/bundle-append.ts:214-234 | the same for an outcome event |
| `BundleStore.BundleDirectory.WriteBaseline` | packages/knowledge-local/src/bundle-append.ts:237-257 | the same for a measurement baseline |
| `BundleStore.BundleDirectory.AppendObservation` | packages/knowledge-local/src/bundle-append.ts:263-285 | the same for a measurement observation |
| `BundleStore.BundleDirectory.AppendRelationRow` | packages/knowledge-local/src/bundle-append.ts:371-398 | the same for a relation |
| `BundleStore.BundleDirectory.AppendOutcomeWithEnrichment` | packages/knowledge-local/src/bundle-append.ts:288-357 | the same for an enriched outcome, falling back to a plain one when the bundle asks for no enrichment |
| `BundleStore.ReplayAfterCrash` | packages/knowledge-local/src/journal/bundle-mutation.ts:215-250 | replaying a journal over any prefix of itself ends where an undisturbed commit ends |
| `BundleStore.RecoveryConverges` | packages/knowledge-local/src/journal/bundle-mutation.ts:378-419 | however often writer and recovery die, the recovery that completes restores the intended bundle |
| `BundleStore.WrittenReadsBack` | packages/knowledge-local/src/journal/bundle-mutation.ts:245-250 | the digest read-back after a completed journal never fails |
| `BundleStore.TornVerifiedIff` | packages/knowledge-local/src/journal/bundle-mutation.ts:215-250 | a reader accepts a half-applied bundle if and only if no part the old manifest lists has changed yet |
| `BundleStore.FirstLineSlipsThrough` | packages/knowledge-local/src/bundle-append.ts:181-201 | the first gate or measurement line, written before the manifest, is accepted by the old manifest |
| `BundleStore.CrashThenRecover` | packages/knowledge-local/src/journal/bundle-mutation.ts:378-419 | a crashed operation and the replay of its journal together do what the operation does |
| `BundleStore.ListedSurvives` | packages/knowledge-local/src/bundle-append.ts:148-179 | every operation keeps listed the parts that later operations rewrite |
| `BundleLoad.RenderedLoadsIff` | packages/knowledge-local/src/bundle-read.ts:158-230 | a staged bundle loads as the input it was rendered from if and only if its artifact rows are readable |
| `BundleLoad.StepLoads` | packages/knowledge-local/src/bundle-read.ts:108-230 | every operation leaves a loadable bundle loadable |
| `BundleLoad.RunHealthy` | packages/knowledge-local/src/bundle-read.ts:158-386 | a bundle that verifies and loads does both after every run of safe operations |
| `Publish.BundlesDirectory.WriteParts` | packages/knowledge-local/src/bundle-publish.ts:265-268 | the loop overlays exactly the rendered parts on the staging tree |
| `Publish.BundlesDirectory.FillTree` | packages/knowledge-local/src/bundle-publish.ts:250-268 | fills the staging tree with copied artifacts and parts, or leaves nothing rendered when a source cannot be read |
| `Publish.BundlesDirectory.StageBundle` | packages/knowledge-local/src/bundle-publish.ts:202-288 | settles on an existing target, fails without a tree, or leaves the whole tree staged in an existing bundles directory |
| `Publish.BundlesDirectory.FinalizeStagedBundle` | packages/knowledge-local/src/bundle-publish.ts:307-334 | a throwing hook, a failing rename and a refused rename whose target vanishes all throw and leave the tree staged; otherwise a free id is published whole, and a taken one is left as it is, classified, and the tree discarded |
| `Publish.BundlesDirectory.DiscardStagedBundle` | packages/knowledge-local/src/bundle-publish.ts:291-304 | removes this tree and no other, and on request the bundles directory exactly when nothing visible or staged is left in it |
| `Publish.StagedTreeVerifiedIff` | packages/knowledge-local/src/bundle-publish.ts:202-288 | what is staged verifies if and only if the request has a stable first anchor, a safe summary and well-formed artifact references |
| `VerifiedMeaning.ClassifiedIff` | packages/knowledge-local/src/bundle-publish.ts:118-157 | an existing bundle reads as corrupt if and only if its manifest is unreadable, incomplete or not its own identity, as another identity if and only if it is sound and hashes differently, and else as the same; that hashes agree and cores do not never happens |
| `VerifiedMeaning.EvidenceIncompleteIff` | packages/knowledge-local/src/bundle-publish.ts:250-263 | a staged bundle says its evidence is incomplete if and only if some artifact was refused, before or while copying |
| `PublishRace.VisibleIsWhole` | packages/knowledge-local/src/bundle-publish.ts:202-334 | over every interleaving, a visible bundle was published whole by its one owner, keeps its identity, and verifies if its staged tree did |
| `PublishRace.GoodRequestsStayVerified` | packages/knowledge-local/src/bundle-publish.ts:202-334 | over every interleaving with appends and removals, what a good request published is verified |
| `PublishRace.PublishedOnce` | packages/knowledge-local/src/bundle-publish.ts:307-334 | at most one finalize per id answers `published`, unless the bundle was removed in between |
| `PublishRace.FinishedLeavesNothing` | packages/knowledge-local/src/bundle-publish.ts:202-334 | over every interleaving, a writer has a staging tree exactly while a call of its own works on it, or its caller holds it after staging or after a finalize that threw |
| `PublishRace.DiscardedForGood` | packages/knowledge-local/src/curator/commit.ts:1464-1473 | over every interleaving before and after, a caller that discards while it holds the tree, also after a finalize that threw, never has one again |
| `PublishRace.SettleKeepsTreeIff` | packages/knowledge-local/src/bundle-publish.ts:311-325 | settling a refused rename throws, and keeps the tree, if and only if the target that refused it is no longer there |
| `PublishRace.RethrownRun` | packages/knowledge-local/src/bundle-publish.ts:307-334 | for every request that can be staged, a run of two writers and a removal that ends with a rethrown rename error and the tree still there |
| `PublishRace.AlreadyExistsMeansSame` | packages/knowledge-local/src/bundle-publish.ts:118-157 | `already-exists` means that a complete bundle with this identity hash and core was there |
| `PublishRace.VisibleIsNeverReplaced` | packages/knowledge-local/src/bundle-publish.ts:307-334 | over every run without its removal, a visible bundle stays, and holds what it held plus exactly the appends made to it, in order |
| `PublishRace.RepublishIff` | packages/knowledge-local/src/bundle-publish.ts:118-157 | republishing a request whose bundle is there answers `already-exists` if and only if its first anchor has a stable normal form; otherwise the bundle reads as corrupt |
| `IndexState.RunSound` | packages/knowledge-local/src/index-open.ts:28-36 | over every run of opens on either capability, failures, rollbacks and mutations: a current cleanup marker implies that each row of the active vector table holds its record's embedding or one withdrawn since |
| `IndexState.StrictKeptIff` | packages/knowledge-local/src/index-rebuild.ts:496-622 | equality of table and records is kept by every mutation except a rendering refresh of an embedded row |
| `IndexState.ProductsKeptIff` | packages/knowledge-local/src/index-rebuild.ts:320-622 | agreement of the product columns is kept by every mutation except a projection that moves a bundle with a vector row to another product |
| `IndexState.ReconcileExactIff` | packages/knowledge-local/src/index-rebuild.ts:1144-1225 | reconciling a sound table makes it exact if and only if the products of its surviving rows already agree |
| `IndexMeaning.RunKeepsRows` | packages/knowledge-local/src/index-rebuild.ts:320-622 | over every run of opens, failures and mutations a row is present exactly when it has an embedding, and no bundle gets a second row |
| `IndexMeaning.BruteLeavesTables` | packages/knowledge-local/src/index-rebuild.ts:496-622 | without the extension no mutation touches a vector table |
| `IndexMeaning.LiveProjected` | packages/knowledge-local/src/index-rebuild.ts:320-622 | projecting current knowledge takes over its columns, keeps its embedding, gives its active vector row the new facets, and changes no other row |
| `IndexMeaning.DeadProjected` | packages/knowledge-local/src/index-rebuild.ts:549-622 | projecting superseded or deprecated knowledge takes its embedding and all its vector rows, or does nothing where vector rows cannot be deleted |
| `IndexMeaning.RefreshedIs` | packages/knowledge-local/src/index-rebuild.ts:950-1020 | a refreshed rendering costs a current row its embedding and nothing else |
| `IndexMeaning.StoredIs` | packages/knowledge-local/src/index-rebuild.ts:496-527 | a vector of the right dimension is stored with its record, and on a vector connection in the active table with the columns of the record |
| `IndexMeaning.RemovedIs` | packages/knowledge-local/src/index-rebuild.ts:1023-1065 | a removed record takes all its vector rows along, or stays where they cannot be deleted |
| `IndexMeaning.ReconciledIs` | packages/knowledge-local/src/index-rebuild.ts:1144-1225 | after reconciling the table has exactly the present rows of its dimension, with today's facets; surviving rows keep product and vector, new ones take the record's |
| `IndexMeaning.FlippedIff` | packages/knowledge-local/src/profile-migration.ts:331-420 | the profile changes if and only if it is another one and every frozen member is unchanged and staged; then exactly the members have embeddings, and else no record and no stamp changes |
| `IndexMeaning.FlippedTables` | packages/knowledge-local/src/profile-migration.ts:331-420 | the flip fills the target table with exactly the members and changes no other table |
| `IndexWriter.IndexFile.BootstrapSchema` | packages/knowledge-local/src/index-open.ts:452-530 | creates what is missing and keeps what is there |
| `IndexWriter.IndexFile.StampMeta` | packages/knowledge-local/src/index-open.ts:532-555 | writes and deletes exactly the stamps of the specification |
| `IndexWriter.IndexFile.InvalidateDerivedEmbeddings` | packages/knowledge-local/src/index-open.ts:565-571 | the row loop withdraws every embedding and changes nothing else |
| `IndexWriter.IndexFile.RecreateActiveVecTable` | packages/knowledge-local/src/index-open.ts:573-576 | empties the active vector table and no other |
| `IndexWriter.IndexFile.ResetProjectionSchema` | packages/knowledge-local/src/index-open.ts:578-595 | leaves the freshly created schema: no record, no stamp, an empty active vector table, and the other vector tables as they were |
| `IndexWriter.IndexFile.OpeningTransaction` | packages/knowledge-local/src/index-open.ts:655-695 | every branch of the opening transaction ends in the specified database and flag |
| `IndexWriter.IndexFile.OpenIndexWriter` | packages/knowledge-local/src/index-open.ts:620-728 | for every file and fault point, the database and flag are those of the specification; an open that resets leaves no record, and one that fails changes no record and no stamp |
| `IndexWriter.IndexFile.CompleteRendering` | packages/knowledge-local/src/index-open.ts:704-710 | stamps the rendering version exactly when the epoch was stale |
| `IndexWriter.IndexFile.ReconcileTable` | packages/knowledge-local/src/index-rebuild.ts:1144-1225 | the delete and insert loops produce the reconciled table |
| `IndexWriter.IndexFile.ReadIndexMaintenanceState` | packages/knowledge-local/src/index-open.ts:112-184 | the facts mean what the next open does: an error names exactly the missing tables; no pending count means no pending record; and on an index that needs no reset the open is stale as reported (other spellings aside), drops no pending record, changes the records only when stale or moved to another profile, empties the active vector table when reconciliation was outstanding, and else keeps all vector tables unless embeddings are withdrawn |
| `IndexWriter.StaleOpenClears` | packages/knowledge-local/src/index-open.ts:639-695 | an open that finds a stale rendering stamp reports it, leaves no record with an embedding and keeps the stamp |
| `IndexWriter.ResetLeavesNothing` | packages/knowledge-local/src/index-open.ts:578-672 | an open of a file with another schema version leaves no record, only fresh stamps and, on a vector connection, an empty active table; it is not stale and reports nothing pending |
| `IndexWriter.FailedOpenKeeps` | packages/knowledge-local/src/index-open.ts:620-728 | an open that fails, at either point, keeps every record, stamp and vector table, and says which tables it may have added |
| `IndexWriter.StaleUntilCompleted` | packages/knowledge-local/src/index-open.ts:639-710 | a stale stamp survives every run of events that does not complete the epoch |
| `IndexWriter.CompletionEndsIt` | packages/knowledge-local/src/index-open.ts:704-710 | after completion the next open is not stale |
| `IndexWriter.StaleReadingIff` | packages/knowledge-local/src/index-open.ts:166-181 | inspection and writer disagree about staleness exactly when the stamp is another spelling of the current version |
| `IndexWriter.Vec0OpenConverges` | packages/knowledge-local/src/index-open.ts:620-710 | a vector open followed by completion leaves nothing stale and nothing outstanding, whatever the file held |
| `IndexWriter.BruteLeavesWork` | packages/knowledge-local/src/index-open.ts:674-683 | a brute open leaves vector work outstanding through every run until a vector writer opens |
| `DenseSearch.DenseIndex.SearchVec0` | packages/knowledge-local/src/index-reader.ts:439-499 | the product loop, merge, cut and confirmation compute the specified vector answer, or fail as `MATCH` does |
| `DenseSearch.DenseIndex.SearchBrute` | packages/knowledge-local/src/index-reader.ts:501-537 | the scoring loop, sort and cut compute the specified brute answer |
| `DenseSearch.TopOfWinners` | packages/knowledge-local/src/index-reader.ts:476-489 | the k nearest of the per-product k nearest are the k nearest overall |
| `DenseSearch.DenseSearchesAgree` | packages/knowledge-local/src/index-reader.ts:439-537 | on an exact table both searches give the same list, for every query of the profile dimension, limit, product list and filter |
| `DenseSearch.SoundHitsAreTrue` | packages/knowledge-local/src/index-reader.ts:489-497 | under the marker invariant alone every vector hit carries its record's true distance |
| `DenseMeaning.BruteIff` | packages/knowledge-local/src/index-reader.ts:501-537 | a record is in the brute answer if and only if it is of the product asked for, has an embedding of the query's dimension, and fewer than k such records are closer, of two at one distance the smaller row; their number is its place |
| `IndexAgreement.ReconciledSearchesAgree` | packages/knowledge-local/src/index-rebuild.ts:1144-1225 | after any run from a new file in which bundles keep their product, a reconciled vector session searches exactly as scoring every record does |
| `IndexAgreement.StrandedNearestLost` | packages/knowledge-local/src/index-rebuild.ts:950-1020 | a row stranded by a rendering refresh that is nearest in its product makes a one-hit vector search empty although brute search finds a record |
| `IndexFailures.StrandedRun` | packages/knowledge-local/src/index-rebuild.ts:950-1020 | a run from an empty index, two embedded records and a rendering refresh, that ends with a current marker, a stranded row and such a search |
| `IndexFailures.MovedRun` | packages/knowledge-local/src/index-rebuild.ts:320-622 | a run from an empty index that moves an embedded bundle to another product: the marker is current and, before and after reconciliation, no vector search of the new product finds the record while brute search does |
| `IndexFailures.MisreadSpelling` | packages/knowledge-local/src/index-open.ts:166-181 | on a freshly opened index whose stamp is any other spelling of the current version the inspection reports a stale epoch, the next open does not, and after it the inspection does not either |
| `IndexFailures.DecimalSpelling` | packages/knowledge-local/src/index-open.ts:166-181 | the stamp `2.0`, which reads as the number 2, is such a spelling |
| `Reader.RecheckAuthoritativeHits` | packages/knowledge-local/src/index-reader.ts:226-269 | the loop computes the specified refreshed hits |
| `Reader.ScanBundles` | packages/knowledge-local/src/bundle-scan.ts:204-241 | the loop, sort and cut compute the specified scan answer |
| `Reader.ScanBundleById` | packages/knowledge-local/src/bundle-scan.ts:248-255 | returns the first servable bundle in a directory of that name |
| `Reader.RecheckTruth` | packages/knowledge-local/src/index-reader.ts:226-269 | whatever the row said, a hit served names a bundle that verifies, loads, has that id and is servable, and carries that bundle's kind, status, trust, validity and summary |
| `Reader.RecheckIgnoresRows` | packages/knowledge-local/src/index-reader.ts:226-269 | only product and bundle id of a row influence the answer |
| `Reader.RecheckIdempotent` | packages/knowledge-local/src/index-reader.ts:226-269 | rechecking rechecked hits changes nothing |
| `Reader.ScanTruth` | packages/knowledge-local/src/bundle-scan.ts:204-237 | every scanned hit is the truth of the directory it was found in |
| `Reader.ScanByIdTruth` | packages/knowledge-local/src/bundle-scan.ts:194-255 | a hit by id is the truth of a directory of that name |
| `ReaderAnswers.LoadedIff` | packages/knowledge-local/src/bundle-read.ts:158-230 | a directory loads as a bundle if and only if its manifest is complete and every document reads as that bundle says |
| `ReaderAnswers.SaysIff` | packages/knowledge-local/src/bundle-scan.ts:142-163 | a hit of a bundle carries its id, kind, subtype, summary, embedding input and folded trust, and it may be served if and only if it is neither superseded nor deprecated nor closed |
| `ReaderAnswers.ScanAnswerIff` | packages/knowledge-local/src/bundle-scan.ts:204-241 | before the limit a hit is in the answer if and only if a listed directory holds a verified bundle of the product asked for that may be served (when serving), matches the text and carries the normalised anchor, and the hit says what it says |
| `ReaderAnswers.ScanAnswerInOrder` | packages/knowledge-local/src/bundle-scan.ts:231-237 | hits come by product and then by id |
| `ReaderAnswers.ScanAnswerLimited` | packages/knowledge-local/src/bundle-scan.ts:235-237 | a finite limit gives the first max(0, floor k) of them, and what is no number gives none |
| `ReaderAnswers.ScanByIdIff` | packages/knowledge-local/src/bundle-scan.ts:248-255 | by id the first listed directory of that name that may be served answers, and no other |
| `ReaderAnswers.RecheckOneIff` | packages/knowledge-local/src/index-reader.ts:209-269 | a hit survives the recheck if and only if its names are single segments and the directory they name holds a verified bundle of that id that may be served (or any, in an audit) and whose evidence reads |
| `ReaderAnswers.RecheckAppend` | packages/knowledge-local/src/index-reader.ts:226-269 | the recheck works hit by hit and keeps their order |
| `ReaderAnswers.LexicalIff` | packages/knowledge-local/src/index-reader.ts:363-403 | the scanning reader answers a text search with exactly the listed bundles of the product that may be served and match |
| `ReaderAnswers.LookupIff` | packages/knowledge-local/src/index-reader.ts:363-403 | and an anchor lookup with exactly those that carry the twice normalised anchor |
| `ReaderAnswers.IndexAnswerIs` | packages/knowledge-local/src/index-reader.ts:540-625 | by id the indexed reader rechecks its first row alone, otherwise every row it selected |
| `ReaderFaces.ScannedHitRechecksIff` | packages/knowledge-local/src/index-reader.ts:226-269 | a scanned hit passes the recheck if and only if the directory named by its id verifies, loads, serves, carries that id and has a readable observation log; unchanged if and only if that directory also says the same; in a directory of its own name if and only if the log reads |
| `ReaderFaces.MisnamedDirectoryDropped` | packages/knowledge-local/src/bundle-scan.ts:194-255 | a verified bundle in a directory of another name is served by the scan and dropped by the recheck |
| `ReaderFaces.MalformedLogDropped` | packages/knowledge-local/src/index-reader.ts:226-269 | a verified bundle in its own directory whose observation log lacks the last newline is served by the scan and dropped by the recheck |
| `ReaderFaces.AnchorFacesAgreeIff` | packages/knowledge-local/src/bundle-scan.ts:182-192 | every authentic, servable bundle that the index finds under an anchor is found by the scan, on every disk, if and only if normalising that anchor is stable |
| `ReaderFaces.UnstableAnchorLost` | packages/knowledge-local/src/bundle-scan.ts:182-192 | for every anchor without a stable normal form there is a verified, servable bundle, with that anchor second, that the index face answers and the scan face does not |
| `Reader.KnowledgeFacade.Invoke` | packages/knowledge-local/src/index-reader.ts:666-690 | answers from the index while it works, otherwise degrades to the scan, requesting one rebuild unless the trust epoch changed |
| `Reader.SessionServesTruth` | packages/knowledge-local/src/index-reader.ts:666-751 | over whole sessions with arbitrary index rows and a changing disk, every hit is the truth of a verified servable bundle at that moment |
| `Reader.DegradedForGood` | packages/knowledge-local/src/index-reader.ts:666-690 | after the first failing call every later answer comes from the scan |
| `DiffSince.CollectEvents` | packages/knowledge-local/src/diff-since.ts:204-220 | the event loop collects the specified changes, or fails on the first refused one |
| `DiffSince.CollectBundle` | packages/knowledge-local/src/diff-since.ts:184-220 | the added change and the event loop together give the changes of one bundle |
| `DiffSince.CollectBundles` | packages/knowledge-local/src/diff-since.ts:182-221 | the bundle loop collects the changes of all bundles, or fails on the first that cannot be inspected |
| `DiffSince.PurgeChanges` | packages/knowledge-local/src/diff-since.ts:101-173 | the receipt loop gives the purge changes after the cursor, each receipt once, or fails on a malformed one |
| `DiffSince.DiffSince` | packages/knowledge-local/src/diff-since.ts:176-231 | refuses a cursor that is not a non-negative integer and otherwise returns the feed after it |
| `DiffSince.FeedAfterIs` | packages/knowledge-local/src/diff-since.ts:176-231 | the feed after a cursor is the part of one cursor-free history that lies after it, and equals the sorted result of the loops |
| `DiffSince.CursorLaw` | packages/knowledge-local/src/diff-since.ts:176-231 | for s1 <= s2 the feed after s2 is exactly the changes of the feed after s1 with a later ordinal, in the same order, and succeeds whenever that one does |
| `DiffSince.CursorsSplit` | packages/knowledge-local/src/diff-since.ts:176-231 | successive cursors split the feed with no loss and no duplicate |
| `DiffSince.BundleChangesFiltered` | packages/knowledge-local/src/diff-since.ts:184-220 | creation suppression and the promotion exception included, a cursor shows the later part of one history per bundle |
| `DiffSince.CreationSuppression` | packages/knowledge-local/src/diff-since.ts:204-220 | an event at the creation ordinal is shown if and only if it is a promotion with a receipt at that ordinal |
| `DiffSince.AddedOnce` | packages/knowledge-local/src/diff-since.ts:184-204 | a bundle is added exactly once, at its earliest ordinal, and nothing of it comes before |
| `DiffSince.StrongestIsStrongest` | packages/knowledge-local/src/diff-since.ts:206-218 | an attributed promotion names the strongest path of its receipts |
| `FeedMeaning.BundleTells` | packages/knowledge-local/src/diff-since.ts:35-220 | a cursor shows of a bundle exactly its appearance, if later, and for every later surviving event past creation (or promoted with a receipt) the change of that kind, ordinal, token and observation, with the successor of a supersession, the run of its own job, and the strongest path and last receipt of a promotion |
| `FeedMeaning.PurgesRead` | packages/knowledge-local/src/diff-since.ts:119-173 | the receipts read if and only if every file is regular and well named and the first of every identity can be read |
| `FeedMeaning.PurgesTell` | packages/knowledge-local/src/diff-since.ts:119-173 | they give exactly the purges of the first receipt of every identity |
| `FeedMeaning.ReceiptsAre` | packages/knowledge-local/src/diff-since.ts:119-126 | receipts are the files named `purge-` and `.json` but not `.intent.json`, in the order of their names |
| `FeedMeaning.FeedTells` | packages/knowledge-local/src/diff-since.ts:176-231 | a feed shows exactly what its bundles and receipts contribute after the cursor |
| `FeedMeaning.FeedInOrder` | packages/knowledge-local/src/diff-since.ts:224-231 | a feed is ordered by record, ordinal, kind, token and successor |
| `DiffSince.BundleAcceptedIff` | packages/knowledge-local/src/diff-since.ts:69-99 | the changes of a bundle pass the change schema if and only if no empty id or malformed digest is attributed to what is shown |
| `DiffSince.FeedReadableIff` | packages/knowledge-local/src/diff-since.ts:176-231 | a feed can be read after a cursor if and only if every entry is a sound bundle, every receipt reads, and every bundle is acceptable after that cursor |
| `DiffSince.NamelessRunStopsTheFeed` | packages/schema/src/knowledge/maintenance-views.ts:69-100 | a verified, loadable, servable bundle of a run with an empty id makes every feed from the start fail, whatever else is stored; alone it can be read exactly from its creation ordinal on |
| `Gc.BuildUnknownReferenceExclusion` | packages/knowledge-local/src/gc.ts:144-162 | the loop collects the references of all live unknowns, or fails exactly when one is unreadable |
| `Gc.BuildWithinKExclusion` | packages/knowledge-local/src/gc.ts:175-204 | the chain loop collects the superseded members and the first K of each ranking |
| `Gc.SelectTrims` | packages/knowledge-local/src/gc.ts:233-256 | the candidate loop selects exactly the specified records in id order and counts every skip |
| `Gc.BundleTree.RunKnowledgeGc` | packages/knowledge-local/src/gc.ts:207-274 | validates, plans, then removes exactly the plan, or exactly a prefix of it when authority is lost |
| `Gc.TrimIsSafe` | packages/knowledge-local/src/gc.ts:233-256 | every trimmed record is superseded, not of user origin, not referenced by a live unknown, closed at or before the horizon and not within K |
| `Gc.ChainRetention` | packages/knowledge-local/src/gc.ts:175-204 | every chain keeps its min(K, n) most recently superseded members |
| `Gc.CandidatesClassified` | packages/knowledge-local/src/gc.ts:233-256 | each candidate is exactly one of trimmed, within K or excluded |
| `Gc.PlanMonotone` | packages/knowledge-local/src/gc.ts:164-204 | raising K or lowering the horizon ordinal only removes entries from the plan |
| `GcMeaning.UnknownRefsAre` | packages/knowledge-local/src/gc.ts:144-162 | the protected ids are exactly those that an open question of effective id names, in the conflict list of its discriminant or as the target of a relation |
| `GcMeaning.NamedIsKept` | packages/knowledge-local/src/gc.ts:144-256 | what such a question names is never planned |
| `GcMeaning.LatestIs` | packages/knowledge-local/src/gc.ts:107-113 | the latest supersession is the last surviving superseding event, or the creation |
| `GcMeaning.RankIsCount` | packages/knowledge-local/src/gc.ts:187-199 | the rank of a chain member is the number of members superseded later, at once but created later, or at once but of a greater id |
| `GcMeaning.VerdictIs` | packages/knowledge-local/src/gc.ts:219-256 | for every bundle: its verdict follows from five facts about it, each said without the machinery of the run |
| `GcMeaning.PlanIff` | packages/knowledge-local/src/gc.ts:219-256 | a record is planned if and only if it is a superseded member of some chain, among the first K of none, not a user's, named by no open question and not valid beyond the deepest gate |
| `GcMeaning.PlanInOrder` | packages/knowledge-local/src/gc.ts:233-256 | every planned id is a bundle's, none is planned twice, and they come in order |
| `GcMeaning.TallyCounts` | packages/knowledge-local/src/gc.ts:231-256 | each counter of skipped records is the number of verdicts with its reason |
| `GcResume.ResumePlansTheRest` | packages/knowledge-local/src/gc.ts:207-274 | a rerun after any of the planned removals that kept every chain plans exactly the planned records still there, in the same order |
| `GcResume.InterruptedRunResumes` | packages/knowledge-local/src/gc.ts:258-269 | authority lost before removal n: if the n removals kept every chain, the rerun plans exactly the entries from n on |
| `GcResume.AnyInterruptionResumes` | packages/knowledge-local/src/gc.ts:258-269 | if the planned removals are anchored, that holds for every n |
| `GcResume.RerunPlansNothing` | packages/knowledge-local/src/gc.ts:207-274 | if the whole plan keeps every chain, a rerun after completion plans nothing |
| `GcResume.RankedShape` | packages/knowledge-local/src/lineage-fold.ts:127-175 | the ranking of a chain is exactly the superseded bundles that some bundle of its key contributes, each once, in rank order |
| `GcResume.RankedRemainingIff` | packages/knowledge-local/src/lineage-fold.ts:127-175 | removing bundles leaves a ranking as it was, minus those bundles, if and only if every superseded survivor that a removed bundle put into the chain is put there by a survivor too |
| `GcResume.AnchoredIff` | packages/knowledge-local/src/lineage-fold.ts:127-175 | whichever subset of the plan has been removed, every chain is kept, if and only if each superseded record a planned bundle contributes is contributed by itself or by a bundle that stays |
| `GcResume.CrossedChainsTrimMore` | packages/knowledge-local/src/lineage-fold.ts:127-175 | where the record a removed one contributed has another key, its chain is not kept, and a rerun under the same settings trims a record the first run kept |
| `GcResume.CrossedChainsHappen` | packages/knowledge-local/src/lineage-fold.ts:139-166 | under every supersession key that separates multisets of anchors, copies of any two bundles whose anchors differ form such a crossing |
| `GraphDerive.DerivationBuilder.AddNode` | packages/knowledge-local/src/graph-derive.ts:78-81 | sets the node under its id and product |
| `GraphDerive.DerivationBuilder.AddEdge` | packages/knowledge-local/src/graph-derive.ts:83-94 | keeps the later of two edges of one identity |
| `GraphDerive.DerivationBuilder.Connect` | packages/knowledge-local/src/graph-derive.ts:96-109 | adds one timed link to what the builder has seen, keeping both maps determined by it |
| `GraphDerive.DerivationBuilder.Result` | packages/knowledge-local/src/graph-derive.ts:111-116 | returns the values of both maps, sorted and without repetition |
| `GraphDerive.DeriveObservationEdges` | packages/knowledge-local/src/graph-derive.ts:143-213 | the loop returns the derivation defined by the set of contributed links: latest edge of each identity, all nodes, both strictly sorted |
| `GraphDerive.OrderDoesNotMatter` | packages/knowledge-local/src/graph-derive.ts:143-213 | observations with the same members, in any order and repetition, have the same derivation |
| `GraphDerive.EdgesUnique` | packages/knowledge-local/src/graph-derive.ts:48-117 | edges are sorted with unique identities and carry the maximum recency of the observations producing them |
| `GraphDerive.EndpointsPresent` | packages/knowledge-local/src/graph-derive.ts:96-109 | both endpoints of every edge are among the nodes |
| `GraphMeaning.LinksIff` | packages/knowledge-local/src/graph-derive.ts:119-213 | an observation contributes exactly the links between the two nodes it names in each of the seven relations, web and phone elements told apart |
| `GraphMeaning.EdgeIff` | packages/knowledge-local/src/graph-derive.ts:83-213 | an edge is in the derivation if and only if some observation supports it and none supports it later |
| `GraphMeaning.NodeIff` | packages/knowledge-local/src/graph-derive.ts:78-213 | a node is in the derivation if and only if some observation mentions its kind and key, under its id and in the product of the context |
| `GraphMeaning.EdgesInOrder` | packages/knowledge-local/src/graph-derive.ts:48-54 | edges come by source, kind and target |
| `GraphMeaning.NodesInOrder` | packages/knowledge-local/src/graph-derive.ts:56-58 | nodes come by id |
| `GraphBridges.SupportIsBest` | packages/knowledge-local/src/graph-derive.ts:259-273 | the folded support is the best edge under recency, then bundle id, then rowid |
| `GraphBridges.SupportOrderFree` | packages/knowledge-local/src/graph-derive.ts:259-273 | the support does not depend on order or repetition |
| `GraphBridges.JoinEdges` | packages/knowledge-local/src/graph-derive.ts:279-294 | the joining loop files every element of every group with its best support |
| `GraphBridges.DeriveEquivalentToBridges` | packages/knowledge-local/src/graph-derive.ts:275-320 | the nested loops return the sorted bridges of the specification |
| `GraphBridges.ExactlyOneBridge` | packages/knowledge-local/src/graph-derive.ts:275-320 | one bridge for each product, step, web element and mobile element such that the step uses both, and no other |
| `GraphBridges.BridgeIsBestSupported` | packages/knowledge-local/src/graph-derive.ts:259-320 | each bridge quotes an edge of the step that no other edge to either element beats |
| `GraphBridges.BridgesOrderFree` | packages/knowledge-local/src/graph-derive.ts:275-320 | the bridges are the same for every order and repetition of the edges |
| `GraphMeaning.JoinedIff` | packages/knowledge-local/src/graph-derive.ts:275-320 | a pair is bridged if and only if the step has a `uses` edge to both elements in that product and one is a web, the other a mobile element |
| `GraphMeaning.BridgedIff` | packages/knowledge-local/src/graph-derive.ts:119-320 | in a derivation a web and a mobile element are bridged at a step if and only if one observation of that step saw the one on the web and one of it saw the other on a phone |
| `Config.DeepMerge` | packages/cli/src/config.ts:139-150 | the key loop computes the recursive merge |
| `Config.MergeLeaf` | packages/cli/src/config.ts:139-150 | a leaf of the merge is the override's wherever it has one, and the base's otherwise |
| `Config.MergeLeafIff` | packages/cli/src/config.ts:139-150 | a leaf is in the merge if and only if it is the override's, or the base's along a path on which both are objects until the override has nothing more to say |
| `Config.AbsentLayer` | packages/cli/src/config.ts:152-158 | a layer that is `null` or `undefined` adds nothing and takes nothing away |
| `Config.OverrideWins` | packages/cli/src/config.ts:139-150 | every leaf of the override is a leaf of the merge |
| `Config.FlattenObject` | packages/cli/src/config.ts:189-219 | the rows are exactly the leaves of the tree, each under its path |
| `Config.LeafIff` | packages/cli/src/config.ts:189-219 | the leaves are the scalars and the empty arrays, wherever a path leads to one |
| `Config.LayerProvenance` | packages/cli/src/config.ts:152-158 | each row of the merged configuration is exactly the row of the last layer that has one at that path |
| `Config.AttributeSource` | packages/cli/src/config.ts:248-256 | the layer loop names the specified source |
| `Config.SourceNamedIff` | packages/cli/src/config.ts:248-256 | the named source is the layer the value came from if and only if the path is not a bare inherited name, or the flags set it |
| `Config.InheritedNameMisattributed` | packages/cli/src/config.ts:248-256 | a global key called `constructor` is attributed to the command-line flags |
| `Config.FlattenGraph` | packages/cli/src/config.ts:189-219 | flattening halts on every finite object graph, cycles included, and marks exactly the recurrences |
| `Config.RowsAreShort` | packages/cli/src/config.ts:189-219 | no row path is longer than the number of objects not on the ancestor path |
| `Config.GraphIsTree` | packages/cli/src/config.ts:189-219 | without a cycle the rows are those of the unfolded tree |
| `Config.SelfReferenceMarked` | packages/cli/src/config.ts:199-203 | an object that contains itself is marked once where it recurs |
| `LoadLock.PipelineLoader.AcquirePipeline` | packages/knowledge-local/src/embedder-native.ts:171-199 | joins the memoised load, refuses another budget, or starts a load |
| `LoadLock.PipelineLoader.AfterImport` | packages/knowledge-local/src/embedder-native.ts:83-89 | queues the load behind the tail, or settles it when the import failed |
| `LoadLock.PipelineLoader.EnterOperation` | packages/knowledge-local/src/embedder-native.ts:89-125 | enters once the previous ticket is released, saving and changing the environment |
| `LoadLock.PipelineLoader.LeaveOperation` | packages/knowledge-local/src/embedder-native.ts:90-167 | restores the environment and releases the lock on success and failure |
| `LoadLock.MutualExclusion` | packages/knowledge-local/src/embedder-native.ts:83-95 | over every interleaving at most one load is inside |
| `LoadLock.EnvironmentRestored` | packages/knowledge-local/src/embedder-native.ts:114-167 | whenever no load is inside, both environment fields have their original values |
| `LoadLock.InsideSeesOwnEnvironment` | packages/knowledge-local/src/embedder-native.ts:114-167 | a load inside sees the original environment with only its own change: the pinned template of its revision when it may download, remote models off when it may not |
| `LoadLock.EntersIff` | packages/knowledge-local/src/embedder-native.ts:97-125 | a load whose turn it is gets inside if and only if it may download or its directory resolves; else it fails, releases the lock and leaves the environment |
| `LoadLock.ArrivalOrder` | packages/knowledge-local/src/embedder-native.ts:83-95 | a load gets inside only after every earlier ticket was released |
| `LoadLock.NeverDeadlocks` | packages/knowledge-local/src/embedder-native.ts:83-95 | while a ticket is unreleased some load can move |
| `LoadLock.OneLoadPerKey` | packages/knowledge-local/src/embedder-native.ts:171-199 | one load per key for the lifetime of the process, failed loads included |
| `RunSubscriber.Subscriber.HandleTestStarted` | packages/analytics/src/run-subscriber.ts:175-184 | resets the live tally and remembers a suite |
| `RunSubscriber.Subscriber.HandleStepFinalized` | packages/analytics/src/run-subscriber.ts:186-215 | adds the step to the live tally, counting it even when its usage cannot be read |
| `RunSubscriber.Subscriber.HandleTestFinished` | packages/analytics/src/run-subscriber.ts:217-230 | records the live tally, keeps the place of an earlier record and deletes the tally |
| `RunSubscriber.Subscriber.Handler` | packages/analytics/src/run-subscriber.ts:287-318 | after every event the subscriber state is the declarative reading of the whole stream so far |
| `RunSubscriber.Subscriber.Flush` | packages/analytics/src/run-subscriber.ts:321-338 | reports nothing before the run finished, and then every member in order and the suite if one was seen |
| `RunSubscriber.AddedTally` | packages/analytics/src/run-subscriber.ts:186-215 | the running tally and sums are those of the list of steps |
| `RunSubscriber.MemberIsLastFinish` | packages/analytics/src/run-subscriber.ts:217-230 | a member records the last finish of its index and the tally of the segment before it |
| `RunSubscriber.SegmentIsSinceReset` | packages/analytics/src/run-subscriber.ts:175-230 | that segment is exactly the steps since the last start, retry or finish of the index |
| `RunSubscriber.MembersAreFinishers` | packages/analytics/src/run-subscriber.ts:217-230 | the members are exactly the finished indices, each once |
| `RunSubscriber.ClassesWithinSteps` | packages/analytics/src/run-subscriber.ts:186-205 | passed, failed and skipped add up to at most the step count, with equality exactly when every status is classified |
| `RunSubscriber.SuiteCountsAddUp` | packages/analytics/src/run-subscriber.ts:266-284 | the child count is the number of finished indices, and its three counts add up to at most it, with equality exactly when none is cancelled or unknown |
| `RunMeaning.TallyIs` | packages/analytics/src/run-subscriber.ts:186-215 | a tally counts the steps by their status, and has the three token sums if and only if some step reported usage |
| `RunMeaning.SegmentIs` | packages/analytics/src/run-subscriber.ts:175-230 | a tally covers the steps since the last start, retry or finish of its test |
| `RunMeaning.FinishersInOrder` | packages/analytics/src/run-subscriber.ts:217-230 | members come in the order in which they first finished |
| `RunMeaning.LastVerdictIff` | packages/analytics/src/run-subscriber.ts:287-318 | the verdict of a run is the last that any event brings |
| `RunMeaning.SuiteIff` | packages/analytics/src/run-subscriber.ts:175-184 | a suite is reported if and only if some start with an index named one, and the run is finished if and only if an event says so |
| `RunMeaning.TestSays` | packages/analytics/src/run-subscriber.ts:232-264 | a test report carries the record, the status of its outcome, and calls it flaky if and only if it passed on a retry |
| `RunMeaning.SuiteSays` | packages/analytics/src/run-subscriber.ts:266-284 | the suite report counts the members by outcome, adds their durations, and has the status of the verdict |
| `RunMeaning.ReportsAre` | packages/analytics/src/run-subscriber.ts:321-338 | one report for each member in order, and the suite's last when there is one |

## Left out

- Text: lower-casing is ASCII only, strings are sequences of characters, and the byte length of a text is the length of what is hashed; UTF-8 encoding is not modelled.
- Integrity report: violations are compared as a set; the order and wording of the messages are not modelled.
- Comparisons: texts are compared by code point, where JavaScript compares UTF-16 code units.
- Composite keys: keys joined with NUL (graph edges, nodes, bridge groups) are tuples; outcome and relation keys are the joined text.
- Codec: the digest and the JSON readers and writers are arbitrary functions under the stated laws; schema validation inside them is part of the reader.
- Ordinals: build ordinals are integers; the outcome schema also admits fractions there. Token sums are integers, where the subscriber would add whatever the payload holds.
- Trust value: the final division is over reals; floating-point rounding is not modelled.
- SQLite: tables are maps, a transaction is one step or nothing, and a nearest-neighbour query is the k smallest under (distance, rowid); sqlite-vec's own limit on k, the full-text index and the SQL text are not modelled.
- IndexState.RunSound: the lease that keeps a second writer out is an assumption of the step relation, a profile migration ends the session that ran it, and the trust-prior epoch stamps appear only as a reason why a read fails.
- DenseSearch.DenseSearchesAgree: the distance is an arbitrary function of the two vectors; a stored vector of another dimension has none, and cosine arithmetic is not modelled.
- Reader: the index rows are arbitrary, so neither full-text ranking nor the choice of rows is claimed; text matching of the scan is an arbitrary predicate; overlapping asynchronous retrievals on one reader are not modelled.
- Publish: symbolic links, containment checks, fsync and file-system error codes other than "target exists" are not modelled; a rename onto an existing empty directory counts as refused.
- ArtifactCopy: the masking function is arbitrary; which targets another copier creates between the existence check and the write, and with what bytes, is an arbitrary map given beforehand.
- BundleLoad: screen-state snapshots and observations are parts like any other; only their readability is modelled.
- GcResume.ResumePlansTheRest: stated for directories with distinct ids and removals that keep every chain; GcResume.CrossedChainsTrimMore shows that the second cannot be dropped. A chain that is not kept need not change the plan (its lost members may be protected otherwise), and no exact condition on the whole plan is given.
- GcMeaning.PlanIff: like GcMeaning.VerdictIs and GcMeaning.RankIsCount stated for directories with distinct ids, which is what publishing leaves; GcMeaning.NamedIsKept needs no such condition.
- DiffSince.PurgeChanges: the receipt's cycle is a natural number, where the file name holds a decimal text.
- GraphDerive: `deriveLocatesViaEdges` connects the elements and locators of one bundle, all at that bundle's creation ordinal; no two of its edges compete by recency, and it is not part of this model.
- Config: keys containing `.` or `[`, empty root keys and `__proto__` are outside the path model, in which a path is a list of segments; the masking of remotes and the printing of the table are not modelled.
- LoadLock: the revision in the pinned template is taken as URL encoding leaves it; `cacheDir` is set on every load and never restored by the code, so it is not among the restored fields; the loads themselves succeed or fail arbitrarily, and fairness of the event loop is not claimed.
- RunSubscriber: the mapping of ids, triggers, runners and plugin names to analytics values is left out, and flushing twice reports the run twice, as the code does.
- Adapters, sessions, commands, dashboards, transports, evaluation and build configuration have no part in this model.
