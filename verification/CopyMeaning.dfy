/** Why an artifact is copied, reused or refused, and what its turn changes. */
module CopyMeaning {
  import opened Prelude
  import opened BundleModel
  import opened ArtifactCopy

  /** What the bytes of a source become: text snapshots go through the mask, everything else stays. */
  function Stored(env: Setting, input: CopyInput, source: Bytes): Bytes {
    match env.mask
    case Some(mask) => if input.role in {Some("dom-snapshot"), Some("ax-snapshot")} then mask(source) else source
    case None => source
  }

  /** The name of what is stored: the digest of the reference, or of the masked bytes where masking changed them. */
  function StoredSha(env: Setting, input: CopyInput, source: Bytes): string {
    if Stored(env, input, source) == source then input.ref.sha else env.sha(Stored(env, input, source))
  }

  /** The source is there and is what the reference says. */
  predicate Genuine(env: Setting, input: CopyInput, source: Bytes) {
    && IsSha(input.ref.sha) && input.sourcePath in env.sources
    && env.sources[input.sourcePath] == Content(source) && env.sha(source) == input.ref.sha
  }

  /** New bytes fit the step and the run. */
  predicate Fits(b: Budget, step: int, n: nat) {
    StepBytes(b, step) + n <= 2_097_152 && b.run + n <= 26_214_400
  }

  /** What is found under the target name: a file of before, or one that another process put there just now. */
  function Found(env: Setting, state: State, i: nat, sha: string): Option<Bytes> {
    if sha in state.dest then Some(state.dest[sha]) else if i in env.raced then Some(env.raced[i]) else None
  }

  /** The turn ends with a copied row. */
  predicate Copies(o: Outcome) { o.Next? && o.row.Copied? }

  /** The turn is refused for this reason. */
  predicate Refused(o: Outcome, reason: SkipReason) { o.Next? && o.row.Skipped? && o.row.skip.reason == reason }

  /**
   * A genuine artifact is copied exactly when its bytes are found under their name already, or nothing is
   * found and they fit; the row counts as written exactly what is new.
   */
  lemma CopiedIff(env: Setting, state: State, i: nat, input: CopyInput, source: Bytes)
    requires Genuine(env, input, source)
    ensures
      var o, sha, bytes := CopyOne(env, state, i, input), StoredSha(env, input, source), Stored(env, input, source);
      && (Copies(o) <==>
          && (sha in state.dest || Fits(state.budget, input.stepIndex, |bytes|))
          && (Found(env, state, i, sha).Some? ==> Found(env, state, i, sha).value == bytes && env.sha(bytes) == sha))
      && (Copies(o) ==>
            o.row.row == CopiedArtifact(input.ref.(sha := sha), "artifacts/" + sha, |bytes|, input.stepIndex, input.role,
                                        input.originalName)
            && o.row.written == if Found(env, state, i, sha).Some? then 0 else |bytes|)
  {
    assert input.ref.(sha := input.ref.sha) == input.ref;
  }

  /** Each reason for a refusal holds exactly when the row says so; a read fault ends the whole run. */
  lemma RefusedIff(env: Setting, state: State, i: nat, input: CopyInput)
    ensures
      var o := CopyOne(env, state, i, input);
      var readable := IsSha(input.ref.sha) && input.sourcePath in env.sources;
      && (o.Thrown? <==> readable && env.sources[input.sourcePath] == ReadFault)
      && (Refused(o, PrunedSource) <==> IsSha(input.ref.sha) && input.sourcePath !in env.sources)
      && (readable && env.sources[input.sourcePath].Content? ==>
            var source := env.sources[input.sourcePath].bytes;
            var sha, n, genuine := StoredSha(env, input, source), |Stored(env, input, source)|, Genuine(env, input, source);
            var full := StepBytes(state.budget, input.stepIndex) + n > 2_097_152;
            && (Refused(o, StepCap) <==> genuine && sha !in state.dest && full)
            && (Refused(o, RunCap) <==> genuine && sha !in state.dest && !full && state.budget.run + n > 26_214_400)
            && (Refused(o, ShaMismatch) <==> !Copies(o) && !Refused(o, StepCap) && !Refused(o, RunCap)))
      && (!IsSha(input.ref.sha) ==> Refused(o, ShaMismatch))
      && (o.Next? && o.row.Skipped? ==> o.row.skip.ref == input.ref && o.row.skip.stepIndex == input.stepIndex)
  {
  }

  /** A turn adds a file only when it writes one or meets one put there by another, and spends exactly what it writes. */
  lemma TurnChanges(env: Setting, state: State, i: nat, input: CopyInput)
    requires CopyOne(env, state, i, input).Next?
    ensures
      var o := CopyOne(env, state, i, input);
      var written := if o.row.Copied? then o.row.written else 0;
      && o.state.budget.run == state.budget.run + written
      && (forall s :: StepBytes(o.state.budget, s) ==
                      StepBytes(state.budget, s) + (if s == input.stepIndex then written else 0))
      && (forall k :: k in state.dest ==> k in o.state.dest && o.state.dest[k] == state.dest[k])
      && (forall k :: k in o.state.dest && k !in state.dest ==>
            && input.sourcePath in env.sources && env.sources[input.sourcePath].Content?
            && var source := env.sources[input.sourcePath].bytes;
            && k == StoredSha(env, input, source)
            && o.state.dest[k] == (if i in env.raced then env.raced[i] else Stored(env, input, source)))
  {
  }
}
