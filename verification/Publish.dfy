/**
 * Publishing a bundle: a private staging tree, one rename that makes it visible, and what any number of
 * writers do to each other when their steps interleave.
 */
module Publish {
  import opened Prelude
  import opened Anchors
  import opened RecordMarkdown
  import opened BundleModel
  import opened BundleParts
  import opened ArtifactCopy

  type Writer = nat

  /** What one writer wants to publish; `input` carries no artifact rows yet. */
  datatype Request = Request(
    input: RenderInput,
    artifacts: seq<CopyInput>,
    preSkipped: seq<SkippedArtifact>,
    sources: map<string, Source>,
    raced: map<nat, Bytes>)

  datatype CollisionReason = HashMismatch | CoreMismatch | ManifestCorrupt

  datatype Outcome =
    | Published(id: string)
    | AlreadyExists(id: string, seen: Manifest)
    | Collision(id: string, reason: CollisionReason, existingHash: Option<string>)
    | Discarded

  /** `classifyExistingBundleTarget`. */
  function Classified(c: Codec, files: Files, expected: Manifest): Outcome {
    match ReadManifest(c, files)
    case None => Collision(expected.id, ManifestCorrupt, None)
    case Some(m) =>
      if !m.complete || !IdentityHolds(c, m) then Collision(expected.id, ManifestCorrupt, Some(m.identityHash))
      else if m.identityHash != expected.identityHash then Collision(expected.id, HashMismatch, Some(m.identityHash))
      else if m.identityCore != expected.identityCore then Collision(expected.id, CoreMismatch, Some(m.identityHash))
      else AlreadyExists(expected.id, m)
  }

  // ----- staging -----

  function ArtifactFiles(dest: map<string, Bytes>): (files: Files)
    ensures forall k :: k in dest ==> "artifacts/" + k in files && files["artifacts/" + k] == dest[k]
    ensures forall p :: p in files ==> |p| >= 10 && p[9] == '/'
  {
    map p | p in (set k | k in dest :: "artifacts/" + k) :: dest[p[10..]]
  }

  function WithCopies(req: Request, copies: CopyResult): RenderInput {
    req.input.(copied := copies.copied, skipped := copies.skipped, evidenceIncomplete := copies.evidenceIncomplete)
  }

  /** The render input once the artifacts have been copied. */
  function WithRows(req: Request, rows: seq<Row>): RenderInput {
    var skipped := req.preSkipped + SkippedOf(rows);
    WithCopies(req, CopyResult(CopiedOf(rows), skipped, skipped != []))
  }

  function CopySetting(c: Codec, req: Request): Setting { Setting(c.sha, None, req.sources, req.raced) }

  /** The identity a request asks for: rendered before anything is copied. */
  function IdentityOf(c: Codec, req: Request): Result<Rendered, RenderError> {
    RenderBundleParts(c, req.input.(copied := [], skipped := [], evidenceIncomplete := false))
  }

  /** A staging tree to be: the artifacts in it from the start, and the parts to write. */
  datatype Tree = Tree(artifacts: Files, rendered: Rendered)

  /** The tree of a request: the copied artifacts and the rendered parts, unless copying aborts. */
  function TreeOf(c: Codec, req: Request): Option<Tree> {
    match CopyFrom(CopySetting(c, req), State(map[], Budget(map[], 0)), 0, req.artifacts)
    case Aborted => None
    case Trace(last, rows) =>
      match RenderBundleParts(c, WithRows(req, rows))
      case Err(_) => None
      case Ok(rendered) => Some(Tree(ArtifactFiles(last.dest), rendered))
  }

  /** Everything a writer's request comes to: the identity it asks for and the tree it would stage. */
  datatype Intent = Intent(identity: Option<Manifest>, tree: Option<Tree>)

  function IntentOf(c: Codec, req: Request): Intent {
    Intent(match IdentityOf(c, req) case Err(_) => None case Ok(r) => Some(r.manifest), TreeOf(c, req))
  }

  function FullTree(tree: Tree): Files { StagedFiles(tree.artifacts, tree.rendered) }

  datatype Opening = Fails | Present(outcome: Outcome) | Opens(tree: Tree)

  /** What `stageBundle` decides before it writes the first part. */
  function Open(c: Codec, visible: map<string, Files>, intent: Intent): Opening {
    match intent.identity
    case None => Fails
    case Some(identity) =>
      if identity.id in visible then Present(Classified(c, visible[identity.id], identity))
      else
        match intent.tree
        case None => Fails
        case Some(tree) => Opens(tree)
  }

  datatype StageResult = Failed | Settled(outcome: Outcome) | Staged(rendered: Rendered)

  /**
   * What the world may do to one finalize: the hook before the rename throws, the rename fails for a reason
   * of its own, or the target that refused it is gone when it is looked for.
   */
  datatype Disturbance = Calm | HookThrows | RenameFails | TargetVanishes

  /**
   * A product's `bundles/` directory: whether it is there, what readers see in it, and the staging trees
   * under its `.staging/`.
   */
  class BundlesDirectory {
    const c: Codec
    var present: bool
    var visible: map<string, Files>
    var staging: map<Writer, Files>

    /** Nothing can be in a directory that is not there. */
    predicate Valid()
      reads this
    {
      visible != map[] || staging != map[] ==> present
    }

    constructor (c: Codec, visible: map<string, Files>)
      ensures Valid() && this.c == c && this.visible == visible && staging == map[]
    {
      this.c, this.visible, staging, present := c, visible, map[], true;
    }

    method WriteParts(w: Writer, parts: seq<Part>)
      requires w in staging
      modifies `staging
      ensures staging == old(staging)[w := old(staging)[w] + PartsMap(parts)]
    {
      ghost var tree := staging[w];
      for i := 0 to |parts|
        invariant w in staging && staging[w] == tree + PartsMap(parts[..i])
        invariant staging == old(staging)[w := staging[w]]
      {
        PartsMapStep(parts, i);
        staging := staging[w := staging[w][parts[i].relPath := parts[i].text]];
      }
      assert parts[..|parts|] == parts;
    }

    /** The body of the staging attempt: copy the artifacts, then render and write every part. */
    method FillTree(w: Writer, req: Request) returns (r: Option<Rendered>)
      requires w in staging && staging[w] == map[]
      modifies `staging
      ensures
        match TreeOf(c, req)
        case None => r == None && staging.Keys == old(staging).Keys && staging - {w} == old(staging) - {w}
        case Some(tree) => r == Some(tree.rendered) && staging == old(staging)[w := FullTree(tree)]
    {
      hide RenderBundleParts, CopyFrom, PartsMap, ArtifactFiles;
      var directory := new ArtifactDirectory(map[]);
      var copied := directory.CopyArtifacts(CopySetting(c, req), req.artifacts, req.preSkipped);
      if copied.Err? { return None; }
      staging := staging[w := ArtifactFiles(directory.files)];
      var input := WithCopies(req, copied.value);
      var rendered := RenderBundleParts(c, input);
      if rendered.Err? { return None; }
      WriteParts(w, rendered.value.parts);
      r := Some(rendered.value);
    }

    method StageBundle(w: Writer, req: Request) returns (r: StageResult)
      requires Valid() && w !in staging
      modifies `staging, `present
      ensures Valid()
      ensures
        match Open(c, visible, IntentOf(c, req))
        case Fails =>
          r == Failed && staging == old(staging) && present == (old(present) || IntentOf(c, req).identity.Some?)
        case Present(outcome) => r == Settled(outcome) && staging == old(staging) && present == old(present)
        case Opens(tree) => r == Staged(tree.rendered) && staging == old(staging)[w := FullTree(tree)] && present
    {
      hide TreeOf, Classified, IdentityOf, FullTree;
      var identity := IdentityOf(c, req);
      if identity.Err? { return Failed; }
      var id := identity.value.manifest.id;
      if id in visible { return Settled(Classified(c, visible[id], identity.value.manifest)); }
      present := true;
      staging := staging[w := map[]];
      var rendered := FillTree(w, req);
      if rendered == None {
        staging := staging - {w};
        return Failed;
      }
      r := Staged(rendered.value);
    }

    /** Every way of throwing leaves the tree to the caller, who discards it. */
    method FinalizeStagedBundle(w: Writer, expected: Manifest, d: Disturbance) returns (r: Result<Outcome, ()>)
      requires Valid() && w in staging
      modifies `staging, `visible, `present
      ensures Valid() && present == old(present)
      ensures
        var id := expected.id;
        if d.HookThrows? || d.RenameFails? then
          r.Err? && staging == old(staging) && visible == old(visible)
        else if id !in old(visible) then
          r == Ok(Published(id)) && staging == old(staging) - {w} && visible == old(visible)[id := old(staging)[w]]
        else if d.TargetVanishes? then
          r.Err? && staging == old(staging) && visible == old(visible) - {id}
        else
          r == Ok(Classified(c, old(visible)[id], expected)) && staging == old(staging) - {w} && visible == old(visible)
    {
      if d.HookThrows? || d.RenameFails? { return Err(()); }
      if expected.id in visible {
        if d.TargetVanishes? {
          visible := visible - {expected.id};
          return Err(());
        }
        r := Ok(Classified(c, visible[expected.id], expected));
        DiscardStagedBundle(w, false);
        return;
      }
      visible := visible[expected.id := staging[w]];
      staging := staging - {w};
      r := Ok(Published(expected.id));
    }

    /** Removes the tree, if it is still there, and on request the directory once nothing is left in it. */
    method DiscardStagedBundle(w: Writer, removeEmptyBundlesDir: bool)
      requires Valid()
      modifies `staging, `present
      ensures Valid() && staging == old(staging) - {w}
      ensures present == (old(present) && !(removeEmptyBundlesDir && visible == map[] && staging == map[]))
    {
      staging := staging - {w};
      if removeEmptyBundlesDir && visible == map[] && staging == map[] { present := false; }
    }
  }

  lemma PartsMapStep(parts: seq<Part>, i: nat)
    requires i < |parts|
    ensures PartsMap(parts[..i + 1]) == PartsMap(parts[..i])[parts[i].relPath := parts[i].text]
  {
    assert parts[..i + 1][..i] == parts[..i];
  }

  // ----- a staged tree is a verified bundle, exactly when its request allows it -----

  /** Every artifact a request mentions has a well-formed digest and step, also those that end up skipped. */
  predicate WellFormedArtifacts(req: Request) {
    && (forall a :: a in req.artifacts ==> IsSha(a.ref.sha) && a.stepIndex >= 0)
    && (forall s :: s in req.preSkipped ==> IsSha(s.ref.sha) && s.stepIndex >= 0)
  }

  predicate GoodRequest(req: Request) {
    && req.input.draft.anchors != [] && Stable(req.input.draft.anchors[0])
    && SummarySafe(req.input.draft.summary)
    && WellFormedArtifacts(req)
  }

  predicate RowFits(input: CopyInput, row: Row) {
    match row
    case Skipped(s) => s.ref == input.ref && s.stepIndex == input.stepIndex
    case Copied(r, _) =>
      r.ref == input.ref && r.stepIndex == input.stepIndex && r.relPath == "artifacts/" + r.ref.sha && IsSha(r.ref.sha)
  }

  /** Without a mask a row carries the reference it was asked for. */
  lemma {:induction false} RowsFit(env: Setting, state: State, i: nat, inputs: seq<CopyInput>)
    requires env.mask == None && i <= |inputs| && CopyFrom(env, state, i, inputs).Trace?
    ensures |CopyFrom(env, state, i, inputs).rows| == |inputs| - i
    ensures forall k :: i <= k < |inputs| ==> RowFits(inputs[k], CopyFrom(env, state, i, inputs).rows[k - i])
    decreases |inputs| - i
  {
    if i < |inputs| {
      RowsFit(env, CopyOne(env, state, i, inputs[i]).state, i + 1, inputs);
    }
  }

  lemma {:induction false} RowsSplit(rows: seq<Row>)
    ensures forall r :: r in CopiedOf(rows) <==> exists k :: 0 <= k < |rows| && rows[k].Copied? && rows[k].row == r
    ensures forall s :: s in SkippedOf(rows) <==> exists k :: 0 <= k < |rows| && rows[k].Skipped? && rows[k].skip == s
  {
    if rows != [] {
      RowsSplit(rows[1..]);
      var rest := rows[1..];
      assert forall k :: 0 <= k < |rest| ==> rest[k] == rows[k + 1];
      forall r | r in CopiedOf(rows) ensures exists k :: 0 <= k < |rows| && rows[k].Copied? && rows[k].row == r {
        if r in CopiedOf(rest) {
          var k :| 0 <= k < |rest| && rest[k].Copied? && rest[k].row == r;
          assert rows[k + 1].Copied? && rows[k + 1].row == r;
        } else {
          assert rows[0].Copied? && rows[0].row == r;
        }
      }
      forall s | s in SkippedOf(rows) ensures exists k :: 0 <= k < |rows| && rows[k].Skipped? && rows[k].skip == s {
        if s in SkippedOf(rest) {
          var k :| 0 <= k < |rest| && rest[k].Skipped? && rest[k].skip == s;
          assert rows[k + 1].Skipped? && rows[k + 1].skip == s;
        } else {
          assert rows[0].Skipped? && rows[0].skip == s;
        }
      }
    }
  }

  lemma RowsReadableIff(req: Request, rows: seq<Row>)
    requires |rows| == |req.artifacts| && forall k :: 0 <= k < |rows| ==> RowFits(req.artifacts[k], rows[k])
    ensures RowsReadable(CopiedOf(rows), req.preSkipped + SkippedOf(rows)) <==> WellFormedArtifacts(req)
  {
    RowsSplit(rows);
    var copied, skipped := CopiedOf(rows), req.preSkipped + SkippedOf(rows);
    if RowsReadable(copied, skipped) {
      forall a | a in req.artifacts ensures IsSha(a.ref.sha) && a.stepIndex >= 0 {
        var k :| 0 <= k < |req.artifacts| && req.artifacts[k] == a;
        if rows[k].Copied? { assert rows[k].row in copied; } else { assert rows[k].skip in skipped; }
      }
      assert forall s :: s in req.preSkipped ==> s in skipped;
    }
    if WellFormedArtifacts(req) {
      forall r | r in copied ensures IsSha(r.ref.sha) && r.stepIndex >= 0 {
        var k :| 0 <= k < |rows| && rows[k].Copied? && rows[k].row == r;
        assert req.artifacts[k] in req.artifacts;
      }
      forall s | s in skipped ensures IsSha(s.ref.sha) && s.stepIndex >= 0 {
        if s in SkippedOf(rows) {
          var k :| 0 <= k < |rows| && rows[k].Skipped? && rows[k].skip == s;
          assert req.artifacts[k] in req.artifacts;
        }
      }
    }
  }

  lemma CopiedBacked(c: Codec, req: Request, last: State, rows: seq<Row>)
    requires CopyFrom(CopySetting(c, req), State(map[], Budget(map[], 0)), 0, req.artifacts) == Trace(last, rows)
    requires |rows| == |req.artifacts| && forall k :: 0 <= k < |rows| ==> RowFits(req.artifacts[k], rows[k])
    ensures ArtifactsBacked(c, ArtifactFiles(last.dest), CopiedOf(rows))
  {
    CopyLaws(CopySetting(c, req), State(map[], Budget(map[], 0)), 0, req.artifacts);
    RowsSplit(rows);
    var copied := CopiedOf(rows);
    forall k | 0 <= k < |copied|
      ensures copied[k].relPath == "artifacts/" + copied[k].ref.sha
      ensures copied[k].relPath in ArtifactFiles(last.dest)
      ensures c.sha(ArtifactFiles(last.dest)[copied[k].relPath]) == copied[k].ref.sha
      ensures |ArtifactFiles(last.dest)[copied[k].relPath]| == copied[k].bytes
    {
      assert copied[k] in copied;
      var j :| 0 <= j < |rows| && rows[j].Copied? && rows[j].row == copied[k];
      assert RowFits(req.artifacts[j], rows[j]);
      assert RowBacked(CopySetting(c, req), last.dest, rows[j]);
    }
  }

  /** Copying rows in changes nothing about the identity a request was opened under. */
  lemma SameRenderedIdentity(c: Codec, req: Request, rows: seq<Row>)
    ensures RenderBundleParts(c, WithRows(req, rows)).Ok? == IdentityOf(c, req).Ok?
    ensures IdentityOf(c, req).Ok? ==>
              var m, i := RenderBundleParts(c, WithRows(req, rows)).value.manifest, IdentityOf(c, req).value.manifest;
              && m.id == i.id && m.identityHash == i.identityHash && m.identityCore == i.identityCore && m.complete
              && req.input.draft.anchors != []
  {
    var bare := req.input.(copied := [], skipped := [], evidenceIncomplete := false);
    assert WithRows(req, rows).draft == bare.draft && WithRows(req, rows).discriminant == bare.discriminant;
    if IdentityOf(c, req).Ok? {
      var subtype := ValidateIdentityInputs(bare.draft, bare.discriminant).value;
      assert IdentityInput(WithRows(req, rows), subtype) == IdentityInput(bare, subtype);
      assert CoreOf(WithRows(req, rows), subtype) == CoreOf(bare, subtype);
    }
  }

  lemma TreeVerifiedIff(c: Codec, req: Request, last: State, rows: seq<Row>)
    requires Lawful(c) && IdentityOf(c, req).Ok?
    requires CopyFrom(CopySetting(c, req), State(map[], Budget(map[], 0)), 0, req.artifacts) == Trace(last, rows)
    requires RenderBundleParts(c, WithRows(req, rows)).Ok?
    ensures
      var rendered := RenderBundleParts(c, WithRows(req, rows)).value;
      var files := StagedFiles(ArtifactFiles(last.dest), rendered);
      && ReadManifest(c, files) == Some(rendered.manifest)
      && (Verified(c, files) <==> GoodRequest(req))
  {
    hide RenderBundleParts, CopyFrom, Verified;
    RowsFit(CopySetting(c, req), State(map[], Budget(map[], 0)), 0, req.artifacts);
    forall k | 0 <= k < |rows| ensures RowFits(req.artifacts[k], rows[k]) {
      assert rows[k] == rows[k - 0];
    }
    CopiedBacked(c, req, last, rows);
    RowsReadableIff(req, rows);
    HasAnchor(c, req);
    RenderVerifiedIff(c, ArtifactFiles(last.dest), WithRows(req, rows));
  }

  lemma HasAnchor(c: Codec, req: Request)
    requires IdentityOf(c, req).Ok?
    ensures req.input.draft.anchors != []
  {
  }

  /**
   * What `stageBundle` leaves in the staging tree is a verified bundle exactly when its primary anchor has
   * a stable normal form, its summary is safe and every artifact mentioned is well formed.
   */
  lemma StagedTreeVerifiedIff(c: Codec, req: Request)
    requires Lawful(c) && IdentityOf(c, req).Ok? && TreeOf(c, req).Some?
    ensures
      var tree := TreeOf(c, req).value;
      && ReadManifest(c, FullTree(tree)) == Some(tree.rendered.manifest)
      && (Verified(c, FullTree(tree)) <==> GoodRequest(req))
  {
    match CopyFrom(CopySetting(c, req), State(map[], Budget(map[], 0)), 0, req.artifacts)
    case Trace(last, rows) => TreeVerifiedIff(c, req, last, rows);
  }

  /** The tree of an intent is complete and carries the identity the intent was opened under. */
  predicate Coherent(c: Codec, intent: Intent) {
    intent.tree.Some? ==>
      && intent.identity.Some?
      && SameNames(intent.tree.value.rendered.manifest, intent.identity.value)
      && intent.tree.value.rendered.manifest.complete
      && ReadManifest(c, FullTree(intent.tree.value)) == Some(intent.tree.value.rendered.manifest)
  }

  predicate SameNames(m: Manifest, i: Manifest) {
    m.id == i.id && m.identityHash == i.identityHash && m.identityCore == i.identityCore
  }

  lemma IntentsAreCoherent(c: Codec, req: Request)
    requires Lawful(c)
    ensures Coherent(c, IntentOf(c, req))
  {
    hide RenderBundleParts, Verified, ReadManifest, FullTree;
    match CopyFrom(CopySetting(c, req), State(map[], Budget(map[], 0)), 0, req.artifacts)
    case Aborted =>
    case Trace(_, rows) =>
      SameRenderedIdentity(c, req, rows);
      if TreeOf(c, req).Some? { StagedTreeVerifiedIff(c, req); }
  }
}
