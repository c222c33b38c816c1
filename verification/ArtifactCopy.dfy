/** Copying artifacts into a content-addressed directory under a byte budget per step and per run. */
module ArtifactCopy {
  import opened Prelude
  import opened BundleModel

  type Bytes = string

  const ARTIFACT_STEP_CAP_BYTES := 2 * 1024 * 1024
  const ARTIFACT_RUN_CAP_BYTES := 25 * 1024 * 1024

  datatype ArtifactRef = ArtifactRef(id: string, sha: string, evidenceIncomplete: Option<bool>)

  datatype CopyInput = CopyInput(
    ref: ArtifactRef,
    sourcePath: string,
    stepIndex: int,
    role: Option<string>,
    originalName: Option<string>)

  datatype CopiedArtifact = CopiedArtifact(
    ref: ArtifactRef,
    relPath: string,
    bytes: nat,
    stepIndex: int,
    role: Option<string>,
    originalName: Option<string>)

  datatype SkipReason = StepCap | RunCap | PrunedSource | ShaMismatch

  datatype SkippedArtifact = SkippedArtifact(ref: ArtifactRef, stepIndex: int, reason: SkipReason)

  datatype CopyResult = CopyResult(
    copied: seq<CopiedArtifact>,
    skipped: seq<SkippedArtifact>,
    evidenceIncomplete: bool)

  /** A source file that opens, or one whose read fails for another reason than absence. */
  datatype Source = Content(bytes: Bytes) | ReadFault

  /**
   * What surrounds one copy: the digest, the caller's mask, the source files, and the files another
   * process slips under a target name just before this process writes it (by input position).
   */
  datatype Setting = Setting(
    sha: Bytes -> string,
    mask: Option<Bytes -> Bytes>,
    sources: map<string, Source>,
    raced: map<nat, Bytes>)

  predicate IsTextRole(role: Option<string>) { role == Some("dom-snapshot") || role == Some("ax-snapshot") }

  function Masked(env: Setting, bytes: Bytes, role: Option<string>): Bytes {
    if env.mask == None || !IsTextRole(role) then bytes else env.mask.value(bytes)
  }

  function CopiedRow(input: CopyInput, ref: ArtifactRef, bytes: nat): CopiedArtifact {
    CopiedArtifact(ref, "artifacts/" + ref.sha, bytes, input.stepIndex, input.role, input.originalName)
  }

  function SkippedRow(input: CopyInput, reason: SkipReason): SkippedArtifact {
    SkippedArtifact(input.ref, input.stepIndex, reason)
  }

  // ----- one input -----

  /** The single row an input leaves behind; `written` is what it newly put in the directory. */
  datatype Row = Copied(row: CopiedArtifact, written: nat) | Skipped(skip: SkippedArtifact)

  datatype Budget = Budget(byStep: map<int, nat>, run: nat)

  datatype State = State(dest: map<string, Bytes>, budget: Budget)

  datatype Outcome = Next(state: State, row: Row) | Thrown

  function StepBytes(b: Budget, step: int): nat { if step in b.byStep then b.byStep[step] else 0 }

  /** `existingBytes` under the name `ref.sha` either is the artifact or refuses it. */
  function Reuse(env: Setting, state: State, input: CopyInput, ref: ArtifactRef, copyBytes: Bytes): Outcome
    requires ref.sha in state.dest
  {
    if env.sha(state.dest[ref.sha]) != ref.sha || state.dest[ref.sha] != copyBytes then
      Next(state, Skipped(SkippedRow(input, ShaMismatch)))
    else
      Next(state, Copied(CopiedRow(input, ref, |copyBytes|), 0))
  }

  function CopyRef(env: Setting, input: CopyInput, source: Bytes): ArtifactRef {
    var copyBytes := Masked(env, source, input.role);
    if copyBytes == source then input.ref else input.ref.(sha := env.sha(copyBytes))
  }

  function CopyOne(env: Setting, state: State, i: nat, input: CopyInput): Outcome {
    if !IsSha(input.ref.sha) then Next(state, Skipped(SkippedRow(input, ShaMismatch)))
    else if input.sourcePath !in env.sources then Next(state, Skipped(SkippedRow(input, PrunedSource)))
    else
      match env.sources[input.sourcePath]
      case ReadFault => Thrown
      case Content(source) =>
        if env.sha(source) != input.ref.sha then Next(state, Skipped(SkippedRow(input, ShaMismatch)))
        else
          var copyBytes := Masked(env, source, input.role);
          var ref := CopyRef(env, input, source);
          var used := StepBytes(state.budget, input.stepIndex);
          if ref.sha in state.dest then Reuse(env, state, input, ref, copyBytes)
          else if used + |copyBytes| > ARTIFACT_STEP_CAP_BYTES then Next(state, Skipped(SkippedRow(input, StepCap)))
          else if state.budget.run + |copyBytes| > ARTIFACT_RUN_CAP_BYTES then
            Next(state, Skipped(SkippedRow(input, RunCap)))
          else if i in env.raced then
            Reuse(env, state.(dest := state.dest[ref.sha := env.raced[i]]), input, ref, copyBytes)
          else
            Next(State(state.dest[ref.sha := copyBytes],
                       Budget(state.budget.byStep[input.stepIndex := used + |copyBytes|],
                              state.budget.run + |copyBytes|)),
                 Copied(CopiedRow(input, ref, |copyBytes|), |copyBytes|))
  }

  /** The rows of the inputs from position `i` on, and the state after them. */
  datatype Trace = Trace(state: State, rows: seq<Row>) | Aborted

  function CopyFrom(env: Setting, state: State, i: nat, inputs: seq<CopyInput>): Trace
    decreases |inputs| - i
  {
    if i >= |inputs| then Trace(state, [])
    else
      match CopyOne(env, state, i, inputs[i])
      case Thrown => Aborted
      case Next(next, row) =>
        match CopyFrom(env, next, i + 1, inputs)
        case Aborted => Aborted
        case Trace(last, rows) => Trace(last, [row] + rows)
  }

  function CopiedOf(rows: seq<Row>): seq<CopiedArtifact> {
    if rows == [] then []
    else (if rows[0].Copied? then [rows[0].row] else []) + CopiedOf(rows[1..])
  }

  function SkippedOf(rows: seq<Row>): seq<SkippedArtifact> {
    if rows == [] then []
    else (if rows[0].Skipped? then [rows[0].skip] else []) + SkippedOf(rows[1..])
  }

  lemma {:induction false} RowsAppend(rows: seq<Row>, row: Row)
    ensures CopiedOf(rows + [row]) == CopiedOf(rows) + (if row.Copied? then [row.row] else [])
    ensures SkippedOf(rows + [row]) == SkippedOf(rows) + (if row.Skipped? then [row.skip] else [])
  {
    if rows == [] {
      assert rows + [row] == [row];
      assert CopiedOf([row][1..]) == [] && SkippedOf([row][1..]) == [];
    } else {
      assert (rows + [row])[1..] == rows[1..] + [row];
      RowsAppend(rows[1..], row);
    }
  }

  /** The directory `artifacts/` of one staged bundle. */
  class ArtifactDirectory {
    var files: map<string, Bytes>

    constructor (existing: map<string, Bytes>)
      ensures files == existing
    {
      files := existing;
    }

    /** One turn of the copy loop: the row of this input, or nothing when its source cannot be read. */
    method CopyArtifact(env: Setting, i: nat, input: CopyInput, byStep: map<int, nat>, run: nat)
      returns (row: Option<Row>, newByStep: map<int, nat>, newRun: nat)
      modifies this
      ensures
        match CopyOne(env, State(old(files), Budget(byStep, run)), i, input)
        case Thrown => row == None
        case Next(next, r) => row == Some(r) && next == State(files, Budget(newByStep, newRun))
    {
      newByStep, newRun := byStep, run;
      if !IsSha(input.ref.sha) {
        return Some(Skipped(SkippedRow(input, ShaMismatch))), byStep, run;
      }
      if input.sourcePath !in env.sources {
        return Some(Skipped(SkippedRow(input, PrunedSource))), byStep, run;
      }
      if env.sources[input.sourcePath].ReadFault? {
        return None, byStep, run;
      }
      var sourceBytes := env.sources[input.sourcePath].bytes;
      if env.sha(sourceBytes) != input.ref.sha {
        return Some(Skipped(SkippedRow(input, ShaMismatch))), byStep, run;
      }
      var copyBytes := Masked(env, sourceBytes, input.role);
      var ref := CopyRef(env, input, sourceBytes);
      if ref.sha !in files {
        var stepBytes := if input.stepIndex in byStep then byStep[input.stepIndex] else 0;
        if stepBytes + |copyBytes| > ARTIFACT_STEP_CAP_BYTES {
          return Some(Skipped(SkippedRow(input, StepCap))), byStep, run;
        }
        if run + |copyBytes| > ARTIFACT_RUN_CAP_BYTES {
          return Some(Skipped(SkippedRow(input, RunCap))), byStep, run;
        }
        if i !in env.raced {
          files := files[ref.sha := copyBytes];
          newByStep := byStep[input.stepIndex := stepBytes + |copyBytes|];
          newRun := run + |copyBytes|;
          return Some(Copied(CopiedRow(input, ref, |copyBytes|), |copyBytes|)), newByStep, newRun;
        }
        files := files[ref.sha := env.raced[i]];
      }
      if env.sha(files[ref.sha]) != ref.sha || files[ref.sha] != copyBytes {
        return Some(Skipped(SkippedRow(input, ShaMismatch))), byStep, run;
      }
      return Some(Copied(CopiedRow(input, ref, |copyBytes|), 0)), byStep, run;
    }

    method CopyArtifacts(env: Setting, inputs: seq<CopyInput>, preSkipped: seq<SkippedArtifact>)
      returns (result: Result<CopyResult, ()>)
      modifies this
      ensures
        match CopyFrom(env, State(old(files), Budget(map[], 0)), 0, inputs)
        case Aborted => result.Err?
        case Trace(last, rows) =>
          && files == last.dest
          && result == Ok(CopyResult(CopiedOf(rows), preSkipped + SkippedOf(rows),
                                     preSkipped + SkippedOf(rows) != []))
    {
      var copied: seq<CopiedArtifact> := [];
      var skipped := preSkipped;
      var copiedBytesByStep: map<int, nat> := map[];
      var copiedBytesForRun: nat := 0;
      ghost var whole := CopyFrom(env, State(files, Budget(map[], 0)), 0, inputs);
      ghost var rows: seq<Row> := [];
      for i := 0 to |inputs|
        invariant copied == CopiedOf(rows) && skipped == preSkipped + SkippedOf(rows)
        invariant whole == Prefixed(rows, CopyFrom(env, State(files, Budget(copiedBytesByStep, copiedBytesForRun)), i, inputs))
      {
        ghost var before := State(files, Budget(copiedBytesByStep, copiedBytesForRun));
        var row;
        row, copiedBytesByStep, copiedBytesForRun :=
          CopyArtifact(env, i, inputs[i], copiedBytesByStep, copiedBytesForRun);
        if row == None { return Err(()); }
        PrefixStep(env, before, i, inputs, rows);
        RowsAppend(rows, row.value);
        if row.value.Copied? {
          copied := copied + [row.value.row];
        } else {
          skipped := skipped + [row.value.skip];
        }
        rows := rows + [row.value];
      }
      assert rows + [] == rows;
      result := Ok(CopyResult(copied, skipped, skipped != []));
    }
  }

  function Prefixed(rows: seq<Row>, t: Trace): Trace {
    match t
    case Aborted => Aborted
    case Trace(last, rest) => Trace(last, rows + rest)
  }

  lemma PrefixStep(env: Setting, state: State, i: nat, inputs: seq<CopyInput>, rows: seq<Row>)
    requires i < |inputs| && CopyOne(env, state, i, inputs[i]).Next?
    ensures
      var n := CopyOne(env, state, i, inputs[i]);
      Prefixed(rows, CopyFrom(env, state, i, inputs)) == Prefixed(rows + [n.row], CopyFrom(env, n.state, i + 1, inputs))
  {
    var n := CopyOne(env, state, i, inputs[i]);
    var t := CopyFrom(env, n.state, i + 1, inputs);
    if t.Trace? { assert rows + ([n.row] + t.rows) == (rows + [n.row]) + t.rows; }
  }

  // ----- what a whole copy guarantees -----

  function WrittenAt(rows: seq<Row>, step: int): nat {
    if rows == [] then 0
    else (if rows[0].Copied? && rows[0].row.stepIndex == step then rows[0].written else 0) + WrittenAt(rows[1..], step)
  }

  function Written(rows: seq<Row>): nat {
    if rows == [] then 0 else (if rows[0].Copied? then rows[0].written else 0) + Written(rows[1..])
  }

  ghost predicate Extends(a: map<string, Bytes>, b: map<string, Bytes>) {
    forall k :: k in a ==> k in b && b[k] == a[k]
  }

  /** A row either names the input's own reference or is copied from a readable source of that digest. */
  ghost predicate RowOf(env: Setting, input: CopyInput, row: Row) {
    match row
    case Skipped(s) => s.ref == input.ref && s.stepIndex == input.stepIndex
    case Copied(r, written) =>
      && r.stepIndex == input.stepIndex && r.role == input.role && r.originalName == input.originalName
      && r.ref.id == input.ref.id && r.relPath == "artifacts/" + r.ref.sha
      && written <= r.bytes
      && input.sourcePath in env.sources && env.sources[input.sourcePath].Content?
      && env.sha(env.sources[input.sourcePath].bytes) == input.ref.sha
      && |Masked(env, env.sources[input.sourcePath].bytes, input.role)| == r.bytes
  }

  /** A copied row's file is there, with the digest and the length the row states. */
  ghost predicate RowBacked(env: Setting, dest: map<string, Bytes>, row: Row) {
    row.Copied? ==>
      && row.row.ref.sha in dest
      && env.sha(dest[row.row.ref.sha]) == row.row.ref.sha
      && |dest[row.row.ref.sha]| == row.row.bytes
  }

  ghost predicate WithinCaps(b: Budget) {
    b.run <= ARTIFACT_RUN_CAP_BYTES && forall s :: StepBytes(b, s) <= ARTIFACT_STEP_CAP_BYTES
  }

  lemma CopyOneLaws(env: Setting, state: State, i: nat, input: CopyInput)
    requires CopyOne(env, state, i, input).Next?
    ensures
      var n := CopyOne(env, state, i, input);
      && Extends(state.dest, n.state.dest)
      && RowOf(env, input, n.row)
      && RowBacked(env, n.state.dest, n.row)
      && n.state.budget.run == state.budget.run + Written([n.row])
      && (forall s :: StepBytes(n.state.budget, s) == StepBytes(state.budget, s) + WrittenAt([n.row], s))
      && (WithinCaps(state.budget) ==> WithinCaps(n.state.budget))
  {
  }

  /**
   * Over any list of inputs: one row each, in order; nothing already in the directory changes; every
   * copied row is backed by its file; and the bytes newly written stay inside both caps.
   */
  lemma {:induction false} CopyLaws(env: Setting, state: State, i: nat, inputs: seq<CopyInput>)
    requires i <= |inputs| && CopyFrom(env, state, i, inputs).Trace? && WithinCaps(state.budget)
    ensures
      var t := CopyFrom(env, state, i, inputs);
      && |t.rows| == |inputs| - i
      && (forall k :: 0 <= k < |t.rows| ==> RowOf(env, inputs[i + k], t.rows[k]))
      && (forall k :: 0 <= k < |t.rows| ==> RowBacked(env, t.state.dest, t.rows[k]))
      && Extends(state.dest, t.state.dest)
      && t.state.budget.run == state.budget.run + Written(t.rows)
      && (forall s :: StepBytes(t.state.budget, s) == StepBytes(state.budget, s) + WrittenAt(t.rows, s))
      && WithinCaps(t.state.budget)
    decreases |inputs| - i
  {
    if i < |inputs| {
      CopyOneLaws(env, state, i, inputs[i]);
      var n := CopyOne(env, state, i, inputs[i]);
      CopyLaws(env, n.state, i + 1, inputs);
      var rest := CopyFrom(env, n.state, i + 1, inputs);
      var t := CopyFrom(env, state, i, inputs);
      assert t.rows[1..] == rest.rows;
      assert forall s :: WrittenAt([n.row], s) + WrittenAt(rest.rows, s) == WrittenAt(t.rows, s);
      assert RowBacked(env, t.state.dest, n.row);
    }
  }

  function SumAt(rows: seq<Row>, steps: seq<int>): nat {
    if steps == [] then 0 else WrittenAt(rows, steps[0]) + SumAt(rows, steps[1..])
  }

  lemma {:induction false} SumAtSplit(row: Row, rows: seq<Row>, steps: seq<int>)
    requires forall a, b :: 0 <= a < b < |steps| ==> steps[a] != steps[b]
    requires row.Copied? ==> row.row.stepIndex in steps
    ensures SumAt([row] + rows, steps) == Written([row]) + SumAt(rows, steps)
  {
    assert ([row] + rows)[1..] == rows;
    if steps == [] {
    } else if row.Copied? && row.row.stepIndex == steps[0] {
      SumAtSkip(row, rows, steps[1..]);
    } else {
      SumAtSplit(row, rows, steps[1..]);
    }
  }

  lemma {:induction false} SumAtSkip(row: Row, rows: seq<Row>, steps: seq<int>)
    requires row.Copied? ==> row.row.stepIndex !in steps
    ensures SumAt([row] + rows, steps) == SumAt(rows, steps)
  {
    assert ([row] + rows)[1..] == rows;
    if steps != [] { SumAtSkip(row, rows, steps[1..]); }
  }

  /** The per-step totals add up to the run total. */
  lemma {:induction false} StepsSumToRun(rows: seq<Row>, steps: seq<int>)
    requires forall a, b :: 0 <= a < b < |steps| ==> steps[a] != steps[b]
    requires forall r :: r in rows && r.Copied? ==> r.row.stepIndex in steps
    ensures SumAt(rows, steps) == Written(rows)
  {
    if rows == [] {
      SumAtEmpty(steps);
    } else {
      assert rows == [rows[0]] + rows[1..];
      StepsSumToRun(rows[1..], steps);
      SumAtSplit(rows[0], rows[1..], steps);
    }
  }

  lemma {:induction false} SumAtEmpty(steps: seq<int>)
    ensures SumAt([], steps) == 0
  {
    if steps != [] { SumAtEmpty(steps[1..]); }
  }
}
