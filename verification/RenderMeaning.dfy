/** What a rendered bundle says: its parts path by path, and its documents field by field. */
module RenderMeaning {
  import opened Prelude
  import opened Lines
  import opened Anchors
  import opened RecordMarkdown
  import opened BundleModel
  import opened BundleParts
  import opened BundleLoad

  // ----- decimal names -----

  /** The number a decimal text stands for. */
  function Decimal(s: string): int {
    if s == "" then 0 else 10 * Decimal(s[..|s| - 1]) + (s[|s| - 1] as int - '0' as int)
  }

  lemma {:induction false} DigitTextIs(n: nat)
    ensures DigitText(n) != "" && Decimal(DigitText(n)) == n
    ensures forall i :: 0 <= i < |DigitText(n)| ==> '0' <= DigitText(n)[i] <= '9'
    ensures n > 0 ==> DigitText(n)[0] != '0'
  {
    var s := DigitText(n);
    if n < 10 {
      assert s[..0] == "";
    } else {
      DigitTextIs(n / 10);
      assert s[..|s| - 1] == DigitText(n / 10);
    }
  }

  lemma SnapshotsApart(a: nat, b: nat)
    ensures SnapshotPath(a) == SnapshotPath(b) <==> a == b
  {
    var front, back := "evidence/screenstates/step-", ".json";
    var x, y := DigitText(a), DigitText(b);
    DigitTextIs(a);
    DigitTextIs(b);
    hide DigitText, Decimal;
    if SnapshotPath(a) == SnapshotPath(b) {
      Between(front, x, back, y);
    }
  }

  lemma Between(front: string, x: string, back: string, y: string)
    requires front + x + back == front + y + back
    ensures x == y
  {
    assert front + x + back == front + (x + back) && front + y + back == front + (y + back);
    assert (front + (x + back))[|front|..] == x + back && (front + (y + back))[|front|..] == y + back;
    assert |x| == |y| && (x + back)[..|x|] == x && (y + back)[..|y|] == y;
  }

  // ----- the parts -----

  /** The content-hashed part at a path, named by what it is rendered from. */
  predicate PartAt(c: Codec, input: RenderInput, record: Frontmatter, path: string, text: string) {
    || (path == "record.md" && text == RecordText(c, record, Prose(input.draft.summary, input.draft.body)))
    || (path == "provenance.json" && text == c.provenanceText(input.provenance.(originClass := input.originClass)))
    || (path == "relations.json" && text == c.relationsText(input.relations))
    || (exists k :: 0 <= k < |input.screenStates| && path == "evidence/screenstates/step-" + DigitText(k) + ".json" && text == input.screenStates[k])
    || (path == "observations.jsonl" && Some(text) == input.observations)
    || (path == "evidence/outcomes.jsonl" && text == LogText(Map(c.eventText, input.initialEvents)))
    || (path == "evidence/evidence.md" && Some(text) == input.evidenceMarkdown)
    || (path == "artifacts.index.json" && text == c.artifactsText(RenderArtifactIndex(input.copied, input.skipped)))
  }

  lemma {:induction false} SnapshotsAre(states: seq<string>, first: nat, path: string, text: string)
    ensures Part(path, text) in Snapshots(states, first) <==>
            exists k :: 0 <= k < |states| && path == SnapshotPath(first + k) && text == states[k]
  {
    if states != [] {
      SnapshotsAre(states[1..], first + 1, path, text);
      var rest := Snapshots(states[1..], first + 1);
      if Part(path, text) in rest {
        var k :| 0 <= k < |states[1..]| && path == SnapshotPath(first + 1 + k) && text == states[1..][k];
        assert text == states[k + 1] && path == SnapshotPath(first + (k + 1));
      }
      if k :| 0 <= k < |states| && path == SnapshotPath(first + k) && text == states[k] {
        if k > 0 { assert text == states[1..][k - 1] && path == SnapshotPath(first + 1 + (k - 1)); }
      }
    }
  }

  /** Each part of the list is the rendering of its own piece of the input. */
  lemma MembersAre(c: Codec, input: RenderInput, record: Frontmatter, path: string, text: string)
    ensures Part(path, text) in HashedParts(c, input, record) <==> PartAt(c, input, record, path, text)
  {
    hide RecordText, LogText, RenderArtifactIndex, Snapshots, DigitText;
    SnapshotsAre(input.screenStates, 0, path, text);
    forall k | 0 <= k < |input.screenStates| ensures SnapshotPath(0 + k) == SnapshotPath(k) {}
    hide SnapshotPath;
    var front := HashedParts(c, input, record)[..3];
    var log := [Part(OUTCOMES, LogText(EventLines(c, input.initialEvents)))];
    var index := [Part(ARTIFACTS_INDEX, c.artifactsText(RenderArtifactIndex(input.copied, input.skipped)))];
    assert HashedParts(c, input, record) ==
           front + Snapshots(input.screenStates, 0) + OptionalPart(OBSERVATIONS, input.observations) + log
           + OptionalPart("evidence/evidence.md", input.evidenceMarkdown) + index;
  }

  /** No two parts of different texts share a path. */
  lemma PathsApart(c: Codec, input: RenderInput, record: Frontmatter, path: string, a: string, b: string)
    requires PartAt(c, input, record, path, a) && PartAt(c, input, record, path, b)
    ensures a == b
  {
    hide RecordText, LogText, RenderArtifactIndex;
    hide DigitText;
    forall j, k | path == "evidence/screenstates/step-" + DigitText(j) + ".json" == "evidence/screenstates/step-" + DigitText(k) + ".json"
      ensures j == k
    {
      SnapshotsApart(j, k);
    }
    forall k | path == "evidence/screenstates/step-" + DigitText(k) + ".json" ensures |path| > 10 && path[9..11] == "sc" {
      assert ("evidence/screenstates/step-" + DigitText(k) + ".json")[9..11] == "sc";
    }
    FixedPaths(RECORD);
    FixedPaths(PROVENANCE);
    FixedPaths(RELATIONS);
    FixedPaths(OUTCOMES);
    FixedPaths(ARTIFACTS_INDEX);
    DistinctFixed();
    assert "observations.jsonl"[9..11] == "on" && "evidence/evidence.md"[9..11] == "ev";
  }

  lemma {:induction false} MapMembers(parts: seq<Part>, path: string, text: string)
    requires forall p, q :: p in parts && q in parts && p.relPath == q.relPath ==> p == q
    ensures Lookup(PartsMap(parts), path) == Some(text) <==> Part(path, text) in parts
  {
    if parts != [] {
      var front, last := parts[..|parts| - 1], parts[|parts| - 1];
      assert forall p :: p in parts <==> p in front || p == last;
      MapMembers(front, path, text);
    }
  }

  /** A rendered bundle has exactly these content-hashed parts, under these paths. */
  lemma PartsAre(c: Codec, input: RenderInput, record: Frontmatter, path: string, text: string)
    ensures Lookup(PartsMap(HashedParts(c, input, record)), path) == Some(text) <==> PartAt(c, input, record, path, text)
  {
    hide PartAt, HashedParts;
    var parts := HashedParts(c, input, record);
    forall p, q | p in parts && q in parts && p.relPath == q.relPath ensures p == q {
      MembersAre(c, input, record, p.relPath, p.text);
      MembersAre(c, input, record, q.relPath, q.text);
      PathsApart(c, input, record, p.relPath, p.text, q.text);
    }
    MapMembers(parts, path, text);
    MembersAre(c, input, record, path, text);
  }

  // ----- the documents -----

  /** The record and the manifest carry the request, the anchors with their normal forms, and one identity. */
  predicate Carries(c: Codec, input: RenderInput, m: Manifest, f: Frontmatter)
    requires input.draft.anchors != []
  {
    && f.kind == input.draft.kind && f.subtype == input.draft.subtype && f.scope == input.draft.scope
    && f.createdAtOrdinal == input.createdAtOrdinal && f.originClass == input.originClass
    && f.evidenceIncomplete == input.evidenceIncomplete
    && |f.anchors| == |input.draft.anchors|
    && (forall i :: 0 <= i < |f.anchors| ==>
          f.anchors[i].raw == input.draft.anchors[i] && f.anchors[i].normalized == Normalize(input.draft.anchors[i]))
    && m.id == f.id && m.identityCore.kind == input.draft.kind && m.identityCore.subtype == input.draft.subtype
    && m.identityCore.scope == input.draft.scope && m.identityCore.discriminantKey == input.discriminant.key
    && m.identityCore.primaryAnchor == Normalize(input.draft.anchors[0])
    && m.createdAtOrdinal == input.createdAtOrdinal && m.originClass == input.originClass
    && m.evidenceIncomplete == input.evidenceIncomplete && m.complete
  }

  /** The artifact index has one row for each copied and each refused artifact, in their order. */
  predicate Indexes(input: RenderInput, index: ArtifactsIndex) {
    && |index.artifacts| == |input.copied| && |index.skipped| == |input.skipped|
    && (forall i :: 0 <= i < |input.copied| ==>
          var a, x := index.artifacts[i], input.copied[i];
          && a.id == x.ref.id && a.sha == x.ref.sha && a.bytes == x.bytes && a.stepIndex == x.stepIndex
          && a.relPath == x.relPath && a.role == x.role && a.originalName == x.originalName)
    && (forall i :: 0 <= i < |input.skipped| ==>
          var a, x := index.skipped[i], input.skipped[i];
          && a.id == x.ref.id && a.sha == x.ref.sha && a.stepIndex == x.stepIndex && a.path == "artifacts/" + x.ref.sha
          && a.reason == (match x.reason
                          case StepCap => "step-cap"
                          case RunCap => "run-cap"
                          case PrunedSource => "pruned-source"
                          case ShaMismatch => "sha-mismatch"))
  }

  /** Which requests are refused before anything is rendered. */
  lemma RefusedIff(c: Codec, input: RenderInput)
    ensures RenderBundleParts(c, input).Err? <==>
            || input.draft.anchors == []
            || input.discriminant.kind != input.draft.kind
            || (input.draft.kind == Fact && (input.draft.subtype == None || input.discriminant.subtype != input.draft.subtype))
            || (input.draft.kind != Fact && input.draft.subtype != None)
  {
    hide RenderWith;
  }

  /** A rendered manifest and record carry the request, and the manifest lists every other part and nothing else. */
  lemma RenderedCarries(c: Codec, input: RenderInput, path: string)
    requires RenderBundleParts(c, input).Ok?
    ensures
      var r := RenderBundleParts(c, input).value;
      && input.draft.anchors != [] && Carries(c, input, r.manifest, r.record)
      && (path in r.manifest.contentHashes <==> exists text :: PartAt(c, input, r.record, path, text))
  {
    hide RecordText, LogText, HashedParts, PartAt, MintId, EmbeddingInput, Normalize, IdentityHash;
    var r := RenderBundleParts(c, input).value;
    var parts := PartsMap(HashedParts(c, input, r.record));
    forall text ensures Lookup(parts, path) == Some(text) <==> PartAt(c, input, r.record, path, text) {
      PartsAre(c, input, r.record, path, text);
    }
    assert path in parts <==> exists text :: Lookup(parts, path) == Some(text);
  }

  /** So a staged bundle that loads reads as its request, document by document. */
  lemma LoadedSays(c: Codec, artifacts: Files, input: RenderInput)
    requires Lawful(c) && RenderBundleParts(c, input).Ok? && GATES !in artifacts
    requires forall r :: r in input.copied ==> r.relPath == "artifacts/" + r.ref.sha
    requires Loads(c, StagedFiles(artifacts, RenderBundleParts(c, input).value))
    ensures
      var b := LoadBundle(c, StagedFiles(artifacts, RenderBundleParts(c, input).value)).bundle;
      && input.draft.anchors != [] && Carries(c, input, b.manifest, b.front) && Indexes(input, b.artifacts)
      && b.provenance == input.provenance.(originClass := input.originClass)
      && b.relations == input.relations && b.events == input.initialEvents && b.gates == []
  {
    hide Lawful, Loads, LoadBundle, RenderWith, StagedFiles, RenderArtifactIndex, Carries, Indexes;
    var subtype := input.draft.subtype;
    RenderedLoadsIff(c, artifacts, input, subtype);
    RenderedCarries(c, input, RECORD);
    IndexedRows(input);
  }

  lemma IndexedRows(input: RenderInput)
    ensures Indexes(input, RenderArtifactIndex(input.copied, input.skipped))
  {
    var index := RenderArtifactIndex(input.copied, input.skipped);
    forall i | 0 <= i < |input.copied| ensures index.artifacts[i] == IndexEntry(input.copied[i]) {}
    forall i | 0 <= i < |input.skipped| ensures index.skipped[i] == SkippedIndexEntry(input.skipped[i]) {}
  }

  /** The embedding input is the prose, a blank line, and one line for each anchor as it was given. */
  lemma EmbeddedLines(c: Codec, p: Prose, anchors: seq<AnchorPair>)
    ensures EmbeddingInput(c, p, anchors) ==
            Join([p.summary, "", p.body, ""] + Map((a: AnchorPair) => c.anchorLine(a.raw), anchors))
  {
    var lines := Map((a: AnchorPair) => c.anchorLine(a.raw), anchors);
    JoinTail(c, anchors);
    var all := [p.summary, "", p.body, ""] + lines;
    assert all[1..][1..][1..] == [""] + lines;
    assert Join(all) == p.summary + "\n" + Join(all[1..]);
    assert Join(all[1..]) == "" + "\n" + Join(all[1..][1..]);
    assert Join(all[1..][1..]) == p.body + "\n" + Join(all[1..][1..][1..]);
  }

  lemma {:induction false} JoinTail(c: Codec, anchors: seq<AnchorPair>)
    ensures Join([""] + Map((a: AnchorPair) => c.anchorLine(a.raw), anchors)) == AnchorTail(c, anchors)
  {
    var f := (a: AnchorPair) => c.anchorLine(a.raw);
    if anchors != [] {
      JoinTail(c, anchors[1..]);
      var rest := Map(f, anchors[1..]);
      assert Map(f, anchors) == [f(anchors[0])] + rest;
      assert ([""] + Map(f, anchors))[1..] == [f(anchors[0])] + rest;
      JoinShift(f(anchors[0]), rest);
    }
  }

  lemma JoinShift(line: string, rest: seq<string>)
    ensures Join([line] + rest) == line + Join([""] + rest)
  {
    assert ([line] + rest)[1..] == rest && ([""] + rest)[1..] == rest;
  }
}
