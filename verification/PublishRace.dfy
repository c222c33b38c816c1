/**
 * Any number of writers staging, finalizing and discarding in any order, while published bundles are
 * appended to and removed. Each action is one step that the file system performs atomically.
 */
module PublishRace {
  import opened Prelude
  import opened Anchors
  import ArtifactCopy
  import opened BundleModel
  import opened BundleParts
  import opened BundleAppend
  import opened Publish

  datatype Phase =
    | Idle
    | Writing(done: nat)
    | Ready
    | Refused
    | Finished(outcome: Outcome)
    /** Staging threw, and removed whatever it had written. */
    | Unstaged
    /** Finalizing threw; the tree is the caller's to discard. */
    | Threw

  /** `owner` names the writer that published each visible bundle; `dropped`, those whose bundle was removed. */
  datatype World = World(
    visible: map<string, Files>,
    staging: map<Writer, Files>,
    phase: Writer -> Phase,
    owner: map<string, Writer>,
    dropped: set<Writer>)

  datatype Action =
    | Begin(w: Writer)
    | Write(w: Writer)
    | FailWriting(w: Writer)
    | Interrupt(w: Writer)
    | Rename(w: Writer)
    | Settle(w: Writer)
    | Discard(w: Writer)
    | Append(id: string, op: Op)
    | Remove(id: string)

  function Enter(s: World, w: Writer, p: Phase): World {
    s.(phase := (v: Writer) => if v == w then p else s.phase(v))
  }

  /** The staging tree of a writer that has written `done` parts. */
  function PartialTree(tree: Tree, done: nat): Files
    requires done <= |tree.rendered.parts|
  {
    tree.artifacts + PartsMap(tree.rendered.parts[..done])
  }

  function BeginStep(c: Codec, intent: Intent, s: World, w: Writer): World {
    match Open(c, s.visible, intent)
    case Fails => Enter(s, w, Unstaged)
    case Present(outcome) => Enter(s, w, Finished(outcome))
    case Opens(tree) => Enter(s.(staging := s.staging[w := tree.artifacts]), w, Writing(0))
  }

  function WriteStep(tree: Tree, s: World, w: Writer, done: nat): World
    requires w in s.staging
  {
    var parts := tree.rendered.parts;
    if done < |parts| then
      Enter(s.(staging := s.staging[w := s.staging[w][parts[done].relPath := parts[done].text]]), w, Writing(done + 1))
    else Enter(s, w, Ready)
  }

  /** The rename: refused when the target exists, otherwise the whole tree becomes visible at once. */
  function RenameStep(id: string, s: World, w: Writer): World
    requires w in s.staging
  {
    if id in s.visible then Enter(s, w, Phase.Refused)
    else
      Enter(s.(visible := s.visible[id := s.staging[w]], staging := s.staging - {w}, owner := s.owner[id := w]),
            w, Finished(Published(id)))
  }

  /** After a refusal: classify what is there and discard, or rethrow when it has gone in the meantime. */
  function SettleStep(c: Codec, expected: Manifest, s: World, w: Writer): World {
    if expected.id in s.visible then
      Enter(s.(staging := s.staging - {w}), w, Finished(Classified(c, s.visible[expected.id], expected)))
    else Enter(s, w, Threw)
  }

  /** The tree is complete and the caller may finalize or discard it, also after an attempt that threw. */
  predicate Staged(p: Phase) { p.Ready? || p.Threw? }

  /** The writer is at work on its tree. */
  predicate Holding(intent: Intent, s: World, w: Writer) { intent.tree.Some? && w in s.staging }

  function Next(c: Codec, intents: Writer -> Intent, s: World, a: Action): World {
    match a
    case Begin(w) => if s.phase(w).Idle? then BeginStep(c, intents(w), s, w) else s
    case Write(w) =>
      if s.phase(w).Writing? && Holding(intents(w), s, w) then
        WriteStep(intents(w).tree.value, s, w, s.phase(w).done)
      else s
    case FailWriting(w) =>
      if s.phase(w).Writing? then Enter(s.(staging := s.staging - {w}), w, Unstaged) else s
    case Interrupt(w) => if Staged(s.phase(w)) then Enter(s, w, Threw) else s
    case Rename(w) =>
      if Staged(s.phase(w)) && Holding(intents(w), s, w) then
        RenameStep(intents(w).tree.value.rendered.manifest.id, s, w)
      else s
    case Settle(w) =>
      if s.phase(w).Refused? && Holding(intents(w), s, w) then
        SettleStep(c, intents(w).tree.value.rendered.manifest, s, w)
      else s
    case Discard(w) =>
      if Staged(s.phase(w)) then Enter(s.(staging := s.staging - {w}), w, Finished(Discarded)) else s
    case Append(id, op) =>
      if id in s.visible then s.(visible := s.visible[id := BundleAppend.Step(c, id, s.visible[id], op)]) else s
    case Remove(id) =>
      if id in s.visible && id in s.owner then
        s.(visible := s.visible - {id}, owner := s.owner - {id}, dropped := s.dropped + {s.owner[id]})
      else s
  }

  function Stepper(c: Codec, intents: Writer -> Intent): (World, Action) -> World {
    (s: World, a: Action) => Next(c, intents, s, a)
  }

  function Empty(): World { World(map[], map[], (w: Writer) => Idle, map[], {}) }

  // ----- the invariant -----

  /** A writer holds a staging tree exactly between opening it and settling or discarding it, and the right one. */
  predicate TreeHeld(intent: Intent, s: World, w: Writer) {
    match s.phase(w)
    case Idle => w !in s.staging
    case Writing(done) =>
      Holding(intent, s, w) && done <= |intent.tree.value.rendered.parts|
      && s.staging[w] == PartialTree(intent.tree.value, done)
    case Ready => Holding(intent, s, w) && s.staging[w] == FullTree(intent.tree.value)
    case Refused => Holding(intent, s, w) && s.staging[w] == FullTree(intent.tree.value)
    case Finished(outcome) =>
      && w !in s.staging
      && (outcome.Published? ==> intent.tree.Some? && outcome.id == intent.tree.value.rendered.manifest.id)
    case Unstaged => w !in s.staging
    case Threw => Holding(intent, s, w) && s.staging[w] == FullTree(intent.tree.value)
  }

  /** A finished writer's verdict is about its own identity. */
  predicate VerdictHolds(c: Codec, intent: Intent, p: Phase) {
    p.Finished? && p.outcome.AlreadyExists? ==>
      && intent.identity.Some?
      && p.outcome.id == intent.identity.value.id
      && p.outcome.seen.identityHash == intent.identity.value.identityHash
      && p.outcome.seen.identityCore == intent.identity.value.identityCore
      && p.outcome.seen.complete && IdentityHolds(c, p.outcome.seen)
  }

  /** A directory is the complete bundle of this intent, later appends included. */
  predicate BundleOf(c: Codec, intent: Intent, files: Files) {
    && intent.tree.Some?
    && ReadManifest(c, files).Some?
    && SameManifestIdentity(intent.tree.value.rendered.manifest, ReadManifest(c, files).value)
    && (Verified(c, FullTree(intent.tree.value)) ==> Verified(c, files))
  }

  predicate VisibleHolds(c: Codec, intents: Writer -> Intent, s: World, id: string)
    requires id in s.visible
  {
    && id in s.owner
    && s.phase(s.owner[id]) == Finished(Published(id))
    && BundleOf(c, intents(s.owner[id]), s.visible[id])
  }

  ghost predicate WritersHold(c: Codec, intents: Writer -> Intent, s: World) {
    forall w :: TreeHeld(intents(w), s, w) && VerdictHolds(c, intents(w), s.phase(w))
  }

  ghost predicate BundlesHold(c: Codec, intents: Writer -> Intent, s: World) {
    forall id :: id in s.visible ==> VisibleHolds(c, intents, s, id)
  }

  /** Owners are the published writers whose bundle is still there. */
  ghost predicate OwnersHold(s: World) {
    && (forall id :: id in s.owner ==> id in s.visible)
    && (forall w :: s.phase(w).Finished? && s.phase(w).outcome.Published? && w !in s.dropped ==>
          s.phase(w).outcome.id in s.owner && s.owner[s.phase(w).outcome.id] == w)
  }

  ghost predicate Inv(c: Codec, intents: Writer -> Intent, s: World) {
    WritersHold(c, intents, s) && BundlesHold(c, intents, s) && OwnersHold(s)
  }

  /** Appending keeps a manifest readable and its identity as it was, verified or not. */
  lemma IdentityOutlives(c: Codec, id: string, files: Files, op: Op)
    requires Lawful(c) && ReadManifest(c, files).Some?
    ensures
      var after := BundleAppend.Step(c, id, files, op);
      && ReadManifest(c, after).Some?
      && SameManifestIdentity(ReadManifest(c, files).value, ReadManifest(c, after).value)
  {
    var m := ReadManifest(c, files).value;
    if m.complete {
      if Enriches(c, id, files, op) {
        EnrichmentPlanned(c, id, files, m, op);
        EnrichedIdentity(c, files, m, ReadProvenance(c, files).value, op);
      } else {
        UnenrichedIsPlain(c, id, files, m, op);
        var plan := PlanComplete(c, id, m, files, op);
        if plan.Answers? && plan.replacements != [] {
          CommittedIdentity(c, files, m, plan.replacements[0].relPath, plan.replacements[0].text);
        }
      }
    }
  }

  lemma CommittedIdentity(c: Codec, files: Files, m: Manifest, path: string, text: string)
    requires ManifestLawful(c) && ReadManifest(c, files) == Some(m) && AppendTarget(path)
    ensures ReadManifest(c, Apply(files, CommitOne(c, m, path, text))) == Some(RewriteManifest(c, m, path, text))
  {
    ApplyOne(c, files, m, path, text);
    NamesAreNotArtifacts(path);
    ManifestReadsBack(c, Apply(files, CommitOne(c, m, path, text)), RewriteManifest(c, m, path, text));
  }

  lemma EnrichedIdentity(c: Codec, files: Files, m: Manifest, p: Provenance, op: Op)
    requires ManifestLawful(c) && ReadManifest(c, files) == Some(m)
    requires op.AppendOutcomeEventWithEnrichment? && p.RunLinked?
    requires ReadRecord(c, files).Some? && EventsOf(c, files).Some?
    ensures
      var after := Apply(files, PlanEnrichment(c, m, files, p, op).replacements);
      ReadManifest(c, after) == Some(EnrichmentManifest(c, files, m, ReadRecord(c, files).value.0, p, op))
  {
    hide ReadRecord, EventsOf, OutcomesAfter, RecordText, EmbeddingInput, PlanEnrichment;
    var front := ReadRecord(c, files).value.0;
    EnrichmentFiles(c, files, m, p, op);
    ManifestParsed(c, files, m);
    DistinctFixed();
    ManifestReadsBack(c, Apply(files, PlanEnrichment(c, m, files, p, op).replacements), EnrichmentManifest(c, files, m, front, p, op));
  }

  lemma AppendStep(c: Codec, id: string, intent: Intent, files: Files, op: Op)
    requires Lawful(c) && BundleOf(c, intent, files) && SafeOp(op)
    ensures BundleOf(c, intent, BundleAppend.Step(c, id, files, op))
  {
    hide Verified, ReadManifest, BundleAppend.Step, FullTree;
    IdentityOutlives(c, id, files, op);
    if Verified(c, files) { StepVerifiedIff(c, id, files, op); }
  }

  lemma FullTreeIsPartial(tree: Tree)
    ensures PartialTree(tree, |tree.rendered.parts|) == FullTree(tree)
  {
    var parts := tree.rendered.parts;
    assert parts[..|parts|] == parts;
  }

  lemma WriteExtends(tree: Tree, done: nat)
    requires done < |tree.rendered.parts|
    ensures
      var part := tree.rendered.parts[done];
      PartialTree(tree, done + 1) == PartialTree(tree, done)[part.relPath := part.text]
  {
    PartsMapStep(tree.rendered.parts, done);
  }

  lemma EmptyTree(tree: Tree)
    ensures PartialTree(tree, 0) == tree.artifacts
  {
    assert tree.artifacts + map[] == tree.artifacts;
  }

  lemma ClassifiedVerdict(c: Codec, intent: Intent, files: Files, m: Manifest)
    requires intent.identity.Some? && SameNames(m, intent.identity.value)
    ensures VerdictHolds(c, intent, Finished(Classified(c, files, m)))
    ensures !Classified(c, files, m).Published?
  {
    hide IdentityHolds, ReadManifest;
  }

  /** Only this writer's phase and tree changed. */
  ghost predicate OnlyWriter(s: World, t: World, w: Writer) {
    && (forall v :: v != w ==> t.phase(v) == s.phase(v) && (v in t.staging <==> v in s.staging))
    && (forall v :: v != w && v in s.staging ==> t.staging[v] == s.staging[v])
  }

  lemma OneWriterChanged(c: Codec, intents: Writer -> Intent, s: World, t: World, w: Writer)
    requires WritersHold(c, intents, s) && OnlyWriter(s, t, w)
    requires TreeHeld(intents(w), t, w) && VerdictHolds(c, intents(w), t.phase(w))
    ensures WritersHold(c, intents, t)
  {
    hide PartialTree, FullTree;
    forall v ensures TreeHeld(intents(v), t, v) && VerdictHolds(c, intents(v), t.phase(v)) {
      if v != w {
        assert TreeHeld(intents(v), s, v) && VerdictHolds(c, intents(v), s.phase(v));
        assert v in s.staging ==> t.staging[v] == s.staging[v];
      }
    }
  }

  /** A step of one writer that touches no visible bundle leaves every other writer's part alone. */
  lemma OthersKept(c: Codec, intents: Writer -> Intent, s: World, t: World, w: Writer)
    requires Inv(c, intents, s)
    requires t.visible == s.visible && t.owner == s.owner && t.dropped == s.dropped
    requires OnlyWriter(s, t, w) && TreeHeld(intents(w), t, w) && VerdictHolds(c, intents(w), t.phase(w))
    requires !(s.phase(w).Finished? && s.phase(w).outcome.Published?)
    requires !(t.phase(w).Finished? && t.phase(w).outcome.Published?)
    ensures Inv(c, intents, t)
  {
    hide WritersHold, PartialTree, FullTree, BundleOf;
    OneWriterChanged(c, intents, s, t, w);
    forall id | id in t.visible ensures VisibleHolds(c, intents, t, id) { assert VisibleHolds(c, intents, s, id); }
  }

  lemma BeginKeeps(c: Codec, intents: Writer -> Intent, s: World, w: Writer)
    requires Inv(c, intents, s) && s.phase(w).Idle?
    ensures Inv(c, intents, BeginStep(c, intents(w), s, w))
  {
    hide Inv, PartialTree, Classified;
    var intent := intents(w);
    HeldByAll(c, intents, s, w);
    match Open(c, s.visible, intent) {
      case Fails =>
      case Present(_) => ClassifiedVerdict(c, intent, s.visible[intent.identity.value.id], intent.identity.value);
      case Opens(tree) => EmptyTree(tree);
    }
    OthersKept(c, intents, s, BeginStep(c, intent, s, w), w);
  }

  lemma HeldByAll(c: Codec, intents: Writer -> Intent, s: World, w: Writer)
    requires Inv(c, intents, s)
    ensures TreeHeld(intents(w), s, w) && VerdictHolds(c, intents(w), s.phase(w))
  {
  }

  lemma WriteKeeps(c: Codec, intents: Writer -> Intent, s: World, w: Writer)
    requires Inv(c, intents, s) && s.phase(w).Writing? && Holding(intents(w), s, w)
    ensures Inv(c, intents, WriteStep(intents(w).tree.value, s, w, s.phase(w).done))
  {
    hide Inv, PartialTree, FullTree;
    var tree := intents(w).tree.value;
    var done := s.phase(w).done;
    HeldByAll(c, intents, s, w);
    if done < |tree.rendered.parts| { WriteExtends(tree, done); } else { FullTreeIsPartial(tree); }
    OthersKept(c, intents, s, WriteStep(tree, s, w, done), w);
  }

  lemma RenameHoldsWriters(c: Codec, intents: Writer -> Intent, s: World, w: Writer)
    requires WritersHold(c, intents, s) && Staged(s.phase(w)) && Holding(intents(w), s, w)
    requires s.staging[w] == FullTree(intents(w).tree.value)
    ensures WritersHold(c, intents, RenameStep(intents(w).tree.value.rendered.manifest.id, s, w))
  {
    hide WritersHold, FullTree;
    OneWriterChanged(c, intents, s, RenameStep(intents(w).tree.value.rendered.manifest.id, s, w), w);
  }

  lemma RenameHoldsBundles(c: Codec, intents: Writer -> Intent, s: World, w: Writer)
    requires BundlesHold(c, intents, s) && Staged(s.phase(w)) && Holding(intents(w), s, w) && Coherent(c, intents(w))
    requires s.staging[w] == FullTree(intents(w).tree.value)
    ensures BundlesHold(c, intents, RenameStep(intents(w).tree.value.rendered.manifest.id, s, w))
  {
    hide FullTree, Verified, ReadManifest;
    var id := intents(w).tree.value.rendered.manifest.id;
    var t := RenameStep(id, s, w);
    if id !in s.visible { assert BundleOf(c, intents(w), t.visible[id]); }
    OtherBundlesKept(c, intents, s, t, id);
    if id in s.visible { assert VisibleHolds(c, intents, s, id); }
  }

  lemma RenameKeeps(c: Codec, intents: Writer -> Intent, s: World, w: Writer)
    requires Inv(c, intents, s) && Staged(s.phase(w)) && Holding(intents(w), s, w) && Coherent(c, intents(w))
    ensures Inv(c, intents, RenameStep(intents(w).tree.value.rendered.manifest.id, s, w))
  {
    hide WritersHold, BundlesHold, FullTree, Coherent;
    HeldByAll(c, intents, s, w);
    RenameHoldsWriters(c, intents, s, w);
    RenameHoldsBundles(c, intents, s, w);
  }

  /** Bundles other than `id` hold on when their owners stay published. */
  lemma OtherBundlesKept(c: Codec, intents: Writer -> Intent, s: World, t: World, id: string)
    requires forall x :: x in s.visible ==> VisibleHolds(c, intents, s, x)
    requires forall x :: x in t.visible && x != id ==>
      x in s.visible && x in s.owner && t.visible[x] == s.visible[x] && x in t.owner && t.owner[x] == s.owner[x]
    requires forall v :: s.phase(v).Finished? ==> t.phase(v) == s.phase(v)
    ensures forall x :: x in t.visible && x != id ==> VisibleHolds(c, intents, t, x)
  {
    hide BundleOf;
    forall x | x in t.visible && x != id ensures VisibleHolds(c, intents, t, x) {
      assert VisibleHolds(c, intents, s, x);
    }
  }

  lemma SettleKeeps(c: Codec, intents: Writer -> Intent, s: World, w: Writer)
    requires Inv(c, intents, s) && s.phase(w).Refused? && Holding(intents(w), s, w) && Coherent(c, intents(w))
    ensures Inv(c, intents, SettleStep(c, intents(w).tree.value.rendered.manifest, s, w))
  {
    hide Inv, PartialTree, FullTree, Classified;
    var m := intents(w).tree.value.rendered.manifest;
    HeldByAll(c, intents, s, w);
    if m.id in s.visible { ClassifiedVerdict(c, intents(w), s.visible[m.id], m); }
    OthersKept(c, intents, s, SettleStep(c, m, s, w), w);
  }

  lemma DiscardKeeps(c: Codec, intents: Writer -> Intent, s: World, w: Writer)
    requires Inv(c, intents, s) && Staged(s.phase(w))
    ensures Inv(c, intents, Next(c, intents, s, Discard(w)))
  {
    hide Inv, PartialTree, FullTree;
    OthersKept(c, intents, s, Next(c, intents, s, Discard(w)), w);
  }

  lemma FailWritingKeeps(c: Codec, intents: Writer -> Intent, s: World, w: Writer)
    requires Inv(c, intents, s) && s.phase(w).Writing?
    ensures Inv(c, intents, Next(c, intents, s, FailWriting(w)))
  {
    hide Inv, PartialTree, FullTree;
    OthersKept(c, intents, s, Next(c, intents, s, FailWriting(w)), w);
  }

  lemma InterruptKeeps(c: Codec, intents: Writer -> Intent, s: World, w: Writer)
    requires Inv(c, intents, s) && Staged(s.phase(w))
    ensures Inv(c, intents, Next(c, intents, s, Interrupt(w)))
  {
    hide Inv, PartialTree, FullTree;
    HeldByAll(c, intents, s, w);
    OthersKept(c, intents, s, Next(c, intents, s, Interrupt(w)), w);
  }

  lemma AppendHoldsBundles(c: Codec, intents: Writer -> Intent, s: World, id: string, op: Op)
    requires Lawful(c) && BundlesHold(c, intents, s) && SafeOp(op) && id in s.visible
    ensures BundlesHold(c, intents, Next(c, intents, s, Append(id, op)))
  {
    hide BundleOf, BundleAppend.Step;
    var t := Next(c, intents, s, Append(id, op));
    assert VisibleHolds(c, intents, s, id);
    AppendStep(c, id, intents(s.owner[id]), s.visible[id], op);
    OtherBundlesKept(c, intents, s, t, id);
  }

  lemma AppendKeeps(c: Codec, intents: Writer -> Intent, s: World, id: string, op: Op)
    requires Lawful(c) && Inv(c, intents, s) && SafeOp(op)
    ensures Inv(c, intents, Next(c, intents, s, Append(id, op)))
  {
    hide BundlesHold, TreeHeld, VerdictHolds, BundleAppend.Step;
    if id in s.visible {
      AppendHoldsBundles(c, intents, s, id, op);
      var t := Next(c, intents, s, Append(id, op));
      forall v ensures TreeHeld(intents(v), t, v) && VerdictHolds(c, intents(v), t.phase(v)) {
        SameTreeHeld(intents(v), s, t, v);
      }
    }
  }

  lemma SameTreeHeld(intent: Intent, s: World, t: World, w: Writer)
    requires TreeHeld(intent, s, w) && t.staging == s.staging && t.phase == s.phase
    ensures TreeHeld(intent, t, w)
  {
  }

  lemma RemoveKeeps(c: Codec, intents: Writer -> Intent, s: World, id: string)
    requires Inv(c, intents, s)
    ensures Inv(c, intents, Next(c, intents, s, Remove(id)))
  {
    hide TreeHeld, BundleOf, IdentityHolds;
    var t := Next(c, intents, s, Remove(id));
    forall v ensures TreeHeld(intents(v), t, v) { SameTreeHeld(intents(v), s, t, v); }
    forall x | x in t.visible ensures VisibleHolds(c, intents, t, x) { assert VisibleHolds(c, intents, s, x); }
  }

  predicate SafeAction(a: Action) { a.Append? ==> SafeOp(a.op) }

  lemma StepKeeps(c: Codec, intents: Writer -> Intent, s: World, a: Action)
    requires Lawful(c) && Inv(c, intents, s) && SafeAction(a) && forall w :: Coherent(c, intents(w))
    ensures Inv(c, intents, Next(c, intents, s, a))
  {
    hide Inv, BeginStep, WriteStep, RenameStep, SettleStep, Coherent;
    match a
    case Begin(w) => if s.phase(w).Idle? { BeginKeeps(c, intents, s, w); }
    case Write(w) => if s.phase(w).Writing? && Holding(intents(w), s, w) { WriteKeeps(c, intents, s, w); }
    case FailWriting(w) => if s.phase(w).Writing? { FailWritingKeeps(c, intents, s, w); }
    case Interrupt(w) => if Staged(s.phase(w)) { InterruptKeeps(c, intents, s, w); }
    case Rename(w) => if Staged(s.phase(w)) && Holding(intents(w), s, w) { RenameKeeps(c, intents, s, w); }
    case Settle(w) => if s.phase(w).Refused? && Holding(intents(w), s, w) { SettleKeeps(c, intents, s, w); }
    case Discard(w) => if Staged(s.phase(w)) { DiscardKeeps(c, intents, s, w); }
    case Append(id, op) => AppendKeeps(c, intents, s, id, op);
    case Remove(id) => RemoveKeeps(c, intents, s, id);
  }

  // ----- theorems -----

  function Reached(c: Codec, intents: Writer -> Intent, actions: seq<Action>): World {
    RunSteps(Stepper(c, intents), Empty(), actions)
  }

  ghost predicate Legal(c: Codec, intents: Writer -> Intent, actions: seq<Action>) {
    Lawful(c) && (forall a :: a in actions ==> SafeAction(a)) && forall w :: Coherent(c, intents(w))
  }

  lemma ReachableInv(c: Codec, intents: Writer -> Intent, actions: seq<Action>)
    requires Legal(c, intents, actions)
    ensures Inv(c, intents, Reached(c, intents, actions))
  {
    hide Next, Coherent;
    var inv := (s: World) => Inv(c, intents, s);
    assert inv(Empty());
    forall s, a | inv(s) && SafeAction(a) ensures inv(Stepper(c, intents)(s, a)) { StepKeeps(c, intents, s, a); }
    RunInvariant(Stepper(c, intents), Empty(), actions, inv, (a: Action) => SafeAction(a));
  }

  /**
   * Every visible bundle was published whole by the one writer that owns it. Its identity never moves, and
   * if its staged tree passed the integrity check it passes still, whatever was appended since.
   */
  lemma VisibleIsWhole(c: Codec, intents: Writer -> Intent, actions: seq<Action>, id: string)
    requires Legal(c, intents, actions) && id in Reached(c, intents, actions).visible
    ensures
      var s := Reached(c, intents, actions);
      && id in s.owner && s.phase(s.owner[id]) == Finished(Published(id))
      && BundleOf(c, intents(s.owner[id]), s.visible[id])
      && ReadManifest(c, s.visible[id]).value.id == id
  {
    hide Inv, Coherent, PartialTree, FullTree, Verified;
    ReachableInv(c, intents, actions);
    var s := Reached(c, intents, actions);
    VisibleByAll(c, intents, s, id);
    HeldByAll(c, intents, s, s.owner[id]);
  }

  lemma VisibleByAll(c: Codec, intents: Writer -> Intent, s: World, id: string)
    requires Inv(c, intents, s) && id in s.visible
    ensures VisibleHolds(c, intents, s, id)
  {
  }

  function IntentsOf(c: Codec, requests: Writer -> Request): Writer -> Intent {
    (w: Writer) => IntentOf(c, requests(w))
  }

  /** Over writers that stage real requests: what a good request published is verified in every reachable world. */
  lemma GoodRequestsStayVerified(c: Codec, requests: Writer -> Request, actions: seq<Action>, id: string)
    requires Lawful(c) && forall a :: a in actions ==> SafeAction(a)
    requires id in Reached(c, IntentsOf(c, requests), actions).visible
    ensures
      var s := Reached(c, IntentsOf(c, requests), actions);
      && id in s.owner
      && (GoodRequest(requests(s.owner[id])) ==> Verified(c, s.visible[id]))
  {
    hide IntentOf, Verified, GoodRequest, Coherent;
    var intents := IntentsOf(c, requests);
    forall w ensures Coherent(c, intents(w)) { IntentsAreCoherent(c, requests(w)); }
    VisibleIsWhole(c, intents, actions, id);
    GoodTree(c, requests(Reached(c, intents, actions).owner[id]));
  }

  lemma GoodTree(c: Codec, req: Request)
    requires Lawful(c)
    ensures IntentOf(c, req).tree.Some? && GoodRequest(req) ==> Verified(c, FullTree(IntentOf(c, req).tree.value))
  {
    hide TreeOf, IdentityOf, Verified, GoodRequest, FullTree;
    IntentsAreCoherent(c, req);
    if IntentOf(c, req).tree.Some? { StagedTreeVerifiedIff(c, req); }
  }

  /** Two writers told `published` for one id are the same writer, unless the bundle was removed in between. */
  lemma PublishedOnce(c: Codec, intents: Writer -> Intent, actions: seq<Action>, w: Writer, v: Writer, id: string)
    requires Legal(c, intents, actions)
    requires
      var s := Reached(c, intents, actions);
      && s.phase(w) == Finished(Published(id)) && s.phase(v) == Finished(Published(id))
      && w !in s.dropped && v !in s.dropped
    ensures w == v
  {
    ReachableInv(c, intents, actions);
  }

  /**
   * A writer has a staging tree exactly while a call of its own is at work on it or until its caller, who
   * holds it after staging and after a finalize that threw, finalizes or discards it.
   */
  lemma FinishedLeavesNothing(c: Codec, intents: Writer -> Intent, actions: seq<Action>, w: Writer)
    requires Legal(c, intents, actions)
    ensures
      var s := Reached(c, intents, actions);
      w in s.staging <==> s.phase(w).Writing? || s.phase(w).Refused? || Staged(s.phase(w))
  {
    hide Inv, Coherent;
    ReachableInv(c, intents, actions);
    HeldByAll(c, intents, Reached(c, intents, actions), w);
  }

  lemma {:induction false} RunsJoin(c: Codec, intents: Writer -> Intent, s: World, a: seq<Action>, b: seq<Action>)
    ensures RunSteps(Stepper(c, intents), s, a + b)
            == RunSteps(Stepper(c, intents), RunSteps(Stepper(c, intents), s, a), b)
    decreases a
  {
    if a == [] {
      assert a + b == b;
    } else {
      assert (a + b)[1..] == a[1..] + b;
      RunsJoin(c, intents, Next(c, intents, s, a[0]), a[1..], b);
    }
  }

  lemma {:induction false} FinishedStays(c: Codec, intents: Writer -> Intent, s: World, actions: seq<Action>, w: Writer)
    requires s.phase(w).Finished?
    ensures RunSteps(Stepper(c, intents), s, actions).phase(w) == s.phase(w)
    decreases actions
  {
    if actions != [] {
      FinishedStep(c, intents, s, actions[0], w);
      FinishedStays(c, intents, Next(c, intents, s, actions[0]), actions[1..], w);
    }
  }

  lemma FinishedStep(c: Codec, intents: Writer -> Intent, s: World, a: Action, w: Writer)
    requires s.phase(w).Finished?
    ensures Next(c, intents, s, a).phase(w) == s.phase(w)
  {
    hide BeginStep, WriteStep, RenameStep, SettleStep, BundleAppend.Step;
    match a
    case Begin(v) => if v != w { OtherPhases(c, intents, s, a, v, w); }
    case Write(v) => if v != w { OtherPhases(c, intents, s, a, v, w); }
    case Rename(v) => if v != w { OtherPhases(c, intents, s, a, v, w); }
    case Settle(v) => if v != w { OtherPhases(c, intents, s, a, v, w); }
    case _ =>
  }

  /** What one writer does leaves the phase of another. */
  lemma OtherPhases(c: Codec, intents: Writer -> Intent, s: World, a: Action, v: Writer, w: Writer)
    requires v != w && (a == Begin(v) || a == Write(v) || a == Rename(v) || a == Settle(v))
    ensures Next(c, intents, s, a).phase(w) == s.phase(w)
  {
    hide Open, Classified, BundleAppend.Step, PartsMap, Holding;
  }

  /**
   * Discarding, which a caller does in its `finally` block, cleans up for good: whatever the other writers
   * do before and after, a caller that discards while it holds the tree, also after a finalize that threw,
   * never has one again.
   */
  lemma DiscardedForGood(c: Codec, intents: Writer -> Intent, before: seq<Action>, later: seq<Action>, w: Writer)
    requires Legal(c, intents, before + [Discard(w)] + later)
    requires Staged(Reached(c, intents, before).phase(w))
    ensures
      var s := Reached(c, intents, before + [Discard(w)] + later);
      s.phase(w) == Finished(Discarded) && w !in s.staging
  {
    hide Coherent, Open, BundleAppend.Step, Inv;
    var s := Reached(c, intents, before);
    var t := Next(c, intents, s, Discard(w));
    RunsJoin(c, intents, Empty(), before, [Discard(w)]);
    assert RunSteps(Stepper(c, intents), s, [Discard(w)]) == RunSteps(Stepper(c, intents), t, []) == t;
    RunsJoin(c, intents, Empty(), before + [Discard(w)], later);
    FinishedStays(c, intents, t, later, w);
    FinishedLeavesNothing(c, intents, before + [Discard(w)] + later, w);
  }

  /** Settling a refused rename keeps the tree exactly when the refused target has gone in the meantime. */
  lemma SettleKeepsTreeIff(c: Codec, intents: Writer -> Intent, s: World, w: Writer)
    requires s.phase(w).Refused? && Holding(intents(w), s, w)
    ensures
      var id := intents(w).tree.value.rendered.manifest.id;
      var t := Next(c, intents, s, Settle(w));
      && (w in t.staging <==> id !in s.visible)
      && (t.phase(w).Threw? <==> id !in s.visible) && (t.phase(w).Finished? <==> id in s.visible)
  {
    hide Classified;
  }

  function Writes(w: Writer, n: nat): seq<Action> { if n == 0 then [] else [Write(w)] + Writes(w, n - 1) }

  /** What staging by one writer leaves alone. */
  ghost predicate OthersUntouched(s: World, t: World, w: Writer) {
    && t.visible == s.visible && t.owner == s.owner
    && forall v :: v != w ==> t.phase(v) == s.phase(v) && (v in t.staging <==> v in s.staging)
  }

  lemma {:induction false} WritesReady(c: Codec, intents: Writer -> Intent, s: World, w: Writer)
    requires s.phase(w).Writing? && Holding(intents(w), s, w)
    requires s.phase(w).done <= |intents(w).tree.value.rendered.parts|
    ensures
      var n := |intents(w).tree.value.rendered.parts| - s.phase(w).done;
      var t := RunSteps(Stepper(c, intents), s, Writes(w, n + 1));
      t.phase(w) == Ready && w in t.staging && OthersUntouched(s, t, w)
    decreases |intents(w).tree.value.rendered.parts| - s.phase(w).done
  {
    var n := |intents(w).tree.value.rendered.parts| - s.phase(w).done;
    var t := Next(c, intents, s, Write(w));
    assert Writes(w, n + 1)[1..] == Writes(w, n);
    if n > 0 { WritesReady(c, intents, t, w); }
  }

  function StageRun(intent: Intent, w: Writer): seq<Action>
    requires intent.tree.Some?
  {
    [Begin(w)] + Writes(w, |intent.tree.value.rendered.parts| + 1)
  }

  lemma StagesReady(c: Codec, intents: Writer -> Intent, s: World, w: Writer)
    requires s.phase(w).Idle? && intents(w).tree.Some? && intents(w).identity.Some?
    requires intents(w).identity.value.id !in s.visible
    ensures
      var t := RunSteps(Stepper(c, intents), s, StageRun(intents(w), w));
      t.phase(w) == Ready && w in t.staging && OthersUntouched(s, t, w)
  {
    var t := Next(c, intents, s, Begin(w));
    assert StageRun(intents(w), w)[1..] == Writes(w, |intents(w).tree.value.rendered.parts| + 1);
    WritesReady(c, intents, t, w);
  }

  /**
   * Such a run, for every request that can be staged: a second writer is refused, the bundle is removed
   * before the refusal is looked into, and the rename error is thrown again with the tree still there.
   */
  lemma RethrownRun(c: Codec, req: Request) returns (actions: seq<Action>)
    requires IntentOf(c, req).identity.Some? && IntentOf(c, req).tree.Some?
    requires IntentOf(c, req).tree.value.rendered.manifest.id == IntentOf(c, req).identity.value.id
    ensures
      var s := Reached(c, (_: Writer) => IntentOf(c, req), actions);
      && s.phase(0) == Finished(Published(IntentOf(c, req).identity.value.id))
      && s.phase(1) == Threw && 1 in s.staging && s.visible == map[]
  {
    hide IntentOf, Classified;
    var intents := (_: Writer) => IntentOf(c, req);
    var intent := IntentOf(c, req);
    var id := intent.identity.value.id;
    var step := Stepper(c, intents);
    StagesReady(c, intents, Empty(), 0);
    var s := RunSteps(step, Empty(), StageRun(intent, 0));
    StagesReady(c, intents, s, 1);
    var t := RunSteps(step, s, StageRun(intent, 1));
    RunsJoin(c, intents, Empty(), StageRun(intent, 0), StageRun(intent, 1));
    var last := [Rename(0), Rename(1), Remove(id), Settle(1)];
    actions := StageRun(intent, 0) + StageRun(intent, 1) + last;
    RunsJoin(c, intents, Empty(), StageRun(intent, 0) + StageRun(intent, 1), last);
    LastSteps(c, intents, t, id);
  }

  lemma LastSteps(c: Codec, intents: Writer -> Intent, t: World, id: string)
    requires t.phase(0) == Ready && t.phase(1) == Ready && 0 in t.staging && 1 in t.staging && t.visible == map[]
    requires intents(0).tree.Some? && intents(0).tree.value.rendered.manifest.id == id && intents(1) == intents(0)
    ensures
      var s := RunSteps(Stepper(c, intents), t, [Rename(0), Rename(1), Remove(id), Settle(1)]);
      s.phase(0) == Finished(Published(id)) && s.phase(1) == Threw && 1 in s.staging && s.visible == map[]
  {
    hide Classified, Open;
    FourSteps(Stepper(c, intents), t, [Rename(0), Rename(1), Remove(id), Settle(1)]);
    hide RunSteps;
    var a := Next(c, intents, t, Rename(0));
    assert a.visible.Keys == {id} && id in a.owner && a.phase(0) == Finished(Published(id));
    assert a.phase(1) == Ready && 1 in a.staging;
    var b := Next(c, intents, a, Rename(1));
    assert b == Enter(a, 1, Phase.Refused);
    var d := Next(c, intents, b, Remove(id));
    assert d.visible == map[] && d.staging == b.staging && d.phase == b.phase;
  }

  /** `already-exists` means that a complete bundle of the same identity hash and core was there. */
  lemma AlreadyExistsMeansSame(c: Codec, intents: Writer -> Intent, actions: seq<Action>, w: Writer)
    requires Legal(c, intents, actions)
    ensures VerdictHolds(c, intents(w), Reached(c, intents, actions).phase(w))
  {
    hide Inv, Coherent;
    ReachableInv(c, intents, actions);
    HeldByAll(c, intents, Reached(c, intents, actions), w);
  }

  /**
   * Whatever the writers do, a bundle that is visible and not removed stays visible, and what it holds is
   * what it held then with exactly the appends made to it since, in their order.
   */
  lemma {:induction false} VisibleIsNeverReplaced(
    c: Codec, intents: Writer -> Intent, s: World, actions: seq<Action>, id: string)
    requires id in s.visible && Remove(id) !in actions
    ensures
      var after := RunSteps(Stepper(c, intents), s, actions).visible;
      id in after && after[id] == BundleAppend.Run(c, id, s.visible[id], AppendsTo(actions, id))
    decreases actions
  {
    if actions != [] {
      var a := actions[0];
      VisibleStep(c, intents, s, a, id);
      VisibleIsNeverReplaced(c, intents, Next(c, intents, s, a), actions[1..], id);
      var ops, rest := AppendsTo(actions, id), AppendsTo(actions[1..], id);
      if a.Append? && a.id == id {
        assert ops[0] == a.op && ops[1..] == rest;
      } else {
        assert ops == rest;
      }
    }
  }

  /** The appends made to one bundle, in order. */
  function AppendsTo(actions: seq<Action>, id: string): seq<Op> {
    if actions == [] then []
    else (if actions[0].Append? && actions[0].id == id then [actions[0].op] else []) + AppendsTo(actions[1..], id)
  }

  lemma VisibleStep(c: Codec, intents: Writer -> Intent, s: World, a: Action, id: string)
    requires id in s.visible && a != Remove(id)
    ensures
      var after := Next(c, intents, s, a).visible;
      id in after
      && after[id] == if a.Append? && a.id == id then BundleAppend.Step(c, id, s.visible[id], a.op) else s.visible[id]
  {
    hide Open, Classified, BundleAppend.Step, PartsMap, Holding;
    match a {
      case Begin(_) => assert Next(c, intents, s, a).visible == s.visible;
      case Write(_) => assert Next(c, intents, s, a).visible == s.visible;
      case FailWriting(_) => assert Next(c, intents, s, a).visible == s.visible;
      case Interrupt(_) => assert Next(c, intents, s, a).visible == s.visible;
      case Rename(_) =>
      case Settle(_) => assert Next(c, intents, s, a).visible == s.visible;
      case Discard(_) => assert Next(c, intents, s, a).visible == s.visible;
      case Append(_, _) =>
      case Remove(_) =>
    }
  }

  /**
   * Publishing the same request again, when its bundle is already there, answers `already-exists` exactly
   * when the anchor has a stable normal form; otherwise the bundle's own manifest reads as corrupt.
   */
  lemma RepublishIff(c: Codec, req: Request, files: Files)
    requires TreeOf(c, req).Some? && IdentityOf(c, req).Ok? && ReadManifest(c, files).Some?
    requires SameManifestIdentity(TreeOf(c, req).value.rendered.manifest, ReadManifest(c, files).value)
    ensures
      var expected := TreeOf(c, req).value.rendered.manifest;
      req.input.draft.anchors != [] &&
      Classified(c, files, expected) ==
      if Stable(req.input.draft.anchors[0]) then AlreadyExists(expected.id, ReadManifest(c, files).value)
      else Collision(expected.id, ManifestCorrupt, Some(expected.identityHash))
  {
    hide IdentityOf, IdentityHolds, Normalize, Stable;
    RenderedTreeIdentity(c, req);
    IdentityKept(c, TreeOf(c, req).value.rendered.manifest, ReadManifest(c, files).value);
  }

  lemma RenderedTreeIdentity(c: Codec, req: Request)
    requires TreeOf(c, req).Some? && IdentityOf(c, req).Ok?
    ensures TreeOf(c, req).value.rendered.manifest.complete && req.input.draft.anchors != []
    ensures IdentityHolds(c, TreeOf(c, req).value.rendered.manifest)
            <==> Stable(req.input.draft.anchors[0])
  {
    hide IdentityHolds, ArtifactCopy.CopyFrom, Normalize, Stable;
    match ArtifactCopy.CopyFrom(CopySetting(c, req), ArtifactCopy.State(map[], ArtifactCopy.Budget(map[], 0)), 0, req.artifacts)
    case Trace(_, rows) =>
      HasAnchor(c, req);
      var input := WithRows(req, rows);
      var subtype := ValidateIdentityInputs(input.draft, input.discriminant).value;
      RenderedIdentity(c, input, subtype, RenderWith(c, input, subtype).manifest);
  }
}
