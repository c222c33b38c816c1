/** What the mutations of an open index do to its rows, and what every run keeps of them. */
module IndexMeaning {
  import opened Prelude
  import opened IndexState

  // ----- what every run keeps -----

  /** A row is present exactly when it has an embedding, and no bundle has two rows. */
  predicate RowsHold(records: map<nat, Row>) {
    && (forall r :: r in records ==> (records[r].embedStatus == Present <==> records[r].embedding.Some?))
    && (forall r, q :: r in records && q in records && records[r].bundleId == records[q].bundleId ==> r == q)
  }

  /** One row may change when it stays its bundle's row and is present exactly with an embedding. */
  lemma RowReplaced(records: map<nat, Row>, r: nat, row: Row)
    requires RowsHold(records) && RowFor(records, r, row.bundleId) && (row.embedStatus == Present <==> row.embedding.Some?)
    ensures RowsHold(records[r := row])
  {
  }

  lemma ProjectionKeepsRows(db: Db, cap: Capability, profile: Profile, m: Mutation)
    requires RowsHold(db.records) && m.ProjectBundle?
    ensures RowsHold(Projected(db, cap, profile, m).records)
  {
    hide RowsHold, WithoutRow, RefreshedVec;
    if RowFor(db.records, m.rowid, m.bundleId) {
      assert m.rowid in db.records ==> (db.records[m.rowid].embedStatus == Present <==> db.records[m.rowid].embedding.Some?) by {
        PresentIff(db.records);
      }
      var row := Upserted(db.records, m)[m.rowid];
      var live := if row.embedStatus.Scrubbed? then row.(embedStatus := Pending) else row;
      RowReplaced(db.records, m.rowid, ScrubbedRow(row));
      RowReplaced(db.records, m.rowid, live);
      assert Upserted(db.records, m)[m.rowid := live] == db.records[m.rowid := live];
      assert Upserted(db.records, m)[m.rowid := ScrubbedRow(row)] == db.records[m.rowid := ScrubbedRow(row)];
    }
  }

  lemma PresentIff(records: map<nat, Row>)
    requires RowsHold(records)
    ensures forall r :: r in records ==> (records[r].embedStatus == Present <==> records[r].embedding.Some?)
  {
  }

  lemma MutationKeepsRows(env: Env, db: Db, cap: Capability, profile: Profile, m: Mutation)
    requires RowsHold(db.records)
    ensures RowsHold(Mutated(env, db, cap, profile, m).records)
  {
    hide RowsHold, Projected, Flipped, ReconciledTable, WithVecRow;
    match m
    case ProjectBundle(_, _, _, _, _) => ProjectionKeepsRows(db, cap, profile, m);
    case RefreshRendering(r) =>
      if r in db.records {
        var row := db.records[r];
        RowReplaced(db.records, r,
          row.(embedding := None, embedStatus := if row.embedStatus.Suppressed? then Suppressed else Pending));
      }
    case StoreEmbedding(r, v) =>
      if r in db.records { RowReplaced(db.records, r, db.records[r].(embedding := Some(v), embedStatus := Present)); }
    case RemoveRecord(r) => RowRemoved(db.records, r);
    case ReconcileVecRows =>
    case FlipProfile(_, _, _) => FlipKeepsRows(env, db, cap, m);
  }

  lemma RowRemoved(records: map<nat, Row>, r: nat)
    requires RowsHold(records)
    ensures RowsHold(records - {r})
  {
  }

  lemma FlipKeepsRows(env: Env, db: Db, cap: Capability, m: Mutation)
    requires RowsHold(db.records) && m.FlipProfile?
    ensures RowsHold(Flipped(env, db, cap, m).records)
  {
    var prepared := db.(vec := if cap.Vec0? then db.vec[m.target := map[]] else db.vec);
    if m.target != ActiveProfile(env, db.meta) && FlipComplete(env, prepared, m) {
      assert forall r :: r in m.frozen ==> !MemberMissing(env, prepared, m, r);
    }
  }

  lemma OpenKeepsRows(env: Env, db: Db, cap: Capability, fault: Fault)
    requires RowsHold(db.records)
    ensures RowsHold(OpenWriter(env, db, cap, fault).db.records)
  {
    hide RowsHold, Stamped, ResetRequired, RenderingStale, TransitionRequired, ActiveProfile, Invalidated;
    InvalidatedRows(db.records);
    NoRows();
  }

  lemma InvalidatedRows(records: map<nat, Row>)
    requires RowsHold(records)
    ensures RowsHold(Invalidated(records))
  {
  }

  lemma NoRows()
    ensures RowsHold(map[])
  {
  }

  /** Over every run: a row is present exactly when it has an embedding, and no bundle gets a second row. */
  lemma RunKeepsRows(env: Env, start: State, events: seq<Event>)
    requires RowsHold(start.db.records)
    ensures RowsHold(RunSteps(Stepper(env), start, events).db.records)
  {
    hide RowsHold;
    var inv := (s: State) => RowsHold(s.db.records);
    forall s, e | inv(s) ensures inv(Stepper(env)(s, e)) {
      hide Mutated, OpenWriter;
      match e
      case Open(cap, fault) => OpenKeepsRows(env, s.db, cap, fault);
      case Mutate(m, _) => if s.conn.Some? { MutationKeepsRows(env, s.db, s.conn.value.cap, s.conn.value.profile, m); }
      case _ =>
    }
    RunInvariant(Stepper(env), start, events, inv, (e: Event) => true);
  }

  /** Without the extension no mutation touches a vector table. */
  lemma BruteLeavesTables(env: Env, db: Db, profile: Profile, m: Mutation)
    ensures Mutated(env, db, Brute, profile, m).vec == db.vec
  {
  }

  // ----- one row at a time -----

  /** No other record and no other vector row changes. */
  predicate OnlyRow(before: Db, after: Db, r: nat) {
    && after.meta == before.meta && after.tables == before.tables && after.vec.Keys == before.vec.Keys
    && (forall x :: x in before.records && x != r ==> x in after.records && after.records[x] == before.records[x])
    && (forall x :: x in after.records && x != r ==> x in before.records)
    && (forall p, x :: p in before.vec && x in before.vec[p] && x != r ==> x in after.vec[p] && after.vec[p][x] == before.vec[p][x])
    && (forall p, x :: p in before.vec && x in after.vec[p] && x != r ==> x in before.vec[p])
  }

  /** The row of a bundle after it was projected as current knowledge. */
  function LiveRow(records: map<nat, Row>, m: Mutation): Row
    requires m.ProjectBundle?
  {
    if m.rowid !in records then Row(m.bundleId, m.product, m.facets, m.input, Pending, None)
    else
      Row(m.bundleId, m.product, m.facets, m.input,
          if records[m.rowid].embedStatus == Scrubbed then Pending else records[m.rowid].embedStatus,
          records[m.rowid].embedding)
  }

  /** Projecting current knowledge keeps the embedding; its row in the active table takes the new facets. */
  lemma LiveProjected(env: Env, db: Db, cap: Capability, profile: Profile, m: Mutation)
    requires m.ProjectBundle? && RowFor(db.records, m.rowid, m.bundleId)
    requires m.facets.status != "superseded" && m.facets.status != "deprecated"
    ensures
      var after, r := Mutated(env, db, cap, profile, m), m.rowid;
      && OnlyRow(db, after, r) && r in after.records && after.records[r] == LiveRow(db.records, m)
      && forall p :: p in db.vec ==>
           && (r in after.vec[p] <==> r in db.vec[p])
           && (r in db.vec[p] ==>
                 after.vec[p][r] == db.vec[p][r].(facets := if cap == Vec0 && p == profile then m.facets else db.vec[p][r].facets))
  {
    hide OnlyRow;
    var after := Mutated(env, db, cap, profile, m);
    assert after.records == db.records[m.rowid := LiveRow(db.records, m)];
    assert OnlyRow(db, after, m.rowid) by { OnlyThisRow(db, after, m.rowid, profile); }
  }

  lemma OnlyThisRow(db: Db, after: Db, r: nat, profile: Profile)
    requires after.meta == db.meta && after.tables == db.tables && after.vec.Keys == db.vec.Keys
    requires forall x :: x != r ==> (x in after.records <==> x in db.records) && (x in db.records ==> after.records[x] == db.records[x])
    requires forall p :: p in db.vec && p != profile ==> after.vec[p] == db.vec[p]
    requires profile in db.vec ==> forall x :: x != r ==>
      (x in after.vec[profile] <==> x in db.vec[profile]) && (x in db.vec[profile] ==> after.vec[profile][x] == db.vec[profile][x])
    ensures OnlyRow(db, after, r)
  {
  }

  /**
   * Projecting what is superseded or deprecated takes the embedding and every vector row away, where vector rows
   * can be taken away, and does nothing where they cannot.
   */
  lemma DeadProjected(env: Env, db: Db, cap: Capability, profile: Profile, m: Mutation)
    requires m.ProjectBundle? && RowFor(db.records, m.rowid, m.bundleId)
    requires m.facets.status == "superseded" || m.facets.status == "deprecated"
    ensures
      var after, r := Mutated(env, db, cap, profile, m), m.rowid;
      && OnlyRow(db, after, r)
      && (cap == Brute && db.vec != map[] ==> after == db)
      && (!(cap == Brute && db.vec != map[]) ==>
            && r in after.records && after.records[r] == Row(
                 m.bundleId, m.product, m.facets, m.input,
                 if r in db.records && db.records[r].embedStatus == Suppressed then Suppressed else Scrubbed, None)
            && forall p :: p in after.vec ==> r !in after.vec[p])
  {
    if m.rowid in db.records { assert db.records[m.rowid].bundleId == m.bundleId; }
  }

  /** A refreshed rendering costs a current row its embedding and leaves every vector table as it is. */
  lemma RefreshedIs(env: Env, db: Db, cap: Capability, profile: Profile, r: nat)
    ensures
      var after := Mutated(env, db, cap, profile, RefreshRendering(r));
      && OnlyRow(db, after, r) && after.vec == db.vec && after.records.Keys == db.records.Keys
      && (r in db.records ==>
            var row, dead := db.records[r], db.records[r].facets.status in {"superseded", "deprecated"};
            after.records[r] == if dead then row else
              row.(embedding := None, embedStatus := if row.embedStatus == Suppressed then Suppressed else Pending))
  {
  }

  /** An embedding of the profile's dimension is stored with its record, and in the active table with the record's columns. */
  lemma StoredIs(env: Env, db: Db, cap: Capability, profile: Profile, r: nat, v: Vector)
    ensures
      var after := Mutated(env, db, cap, profile, StoreEmbedding(r, v));
      && OnlyRow(db, after, r)
      && (|v| != env.dim(profile) || r !in db.records ==> after == db)
      && (|v| == env.dim(profile) && r in db.records ==>
            && r in after.records && after.records[r] == db.records[r].(embedding := Some(v), embedStatus := Present)
            && forall p :: p in db.vec ==>
                 if cap == Vec0 && p == profile then
                   r in after.vec[p] && after.vec[p][r] == VecRow(db.records[r].product, db.records[r].facets, v)
                 else after.vec[p] == db.vec[p])
  {
  }

  /** A removed record leaves every vector table with its row, or stays where they cannot be touched. */
  lemma RemovedIs(env: Env, db: Db, cap: Capability, profile: Profile, r: nat)
    ensures
      var after := Mutated(env, db, cap, profile, RemoveRecord(r));
      && OnlyRow(db, after, r)
      && (r !in db.records || (cap == Brute && db.vec != map[]) ==> after == db)
      && (r in db.records && !(cap == Brute && db.vec != map[]) ==>
            r !in after.records && forall p :: p in after.vec ==> r !in after.vec[p])
  {
  }

  /** Reconciling keeps exactly the present rows of the profile's dimension, all with their record's columns of the day. */
  lemma ReconciledIs(env: Env, db: Db, profile: Profile)
    requires profile in db.vec
    ensures
      var after := Mutated(env, db, Vec0, profile, ReconcileVecRows);
      && after.records == db.records && after.meta == db.meta && after.vec.Keys == db.vec.Keys
      && (forall p :: p in db.vec && p != profile ==> after.vec[p] == db.vec[p])
      && (forall r :: r in after.vec[profile] <==>
            r in db.records && db.records[r].embedStatus == Present && db.records[r].embedding.Some?
            && |db.records[r].embedding.value| == env.dim(profile))
      && (forall r :: r in after.vec[profile] && r in db.records ==> after.vec[profile][r].facets == db.records[r].facets)
      && (forall r :: r in after.vec[profile] && r in db.vec[profile] ==>
            after.vec[profile][r].product == db.vec[profile][r].product
            && after.vec[profile][r].embedding == db.vec[profile][r].embedding)
      && (forall r :: r in after.vec[profile] && r !in db.vec[profile] && r in db.records ==>
            after.vec[profile][r].product == db.records[r].product
            && Some(after.vec[profile][r].embedding) == db.records[r].embedding)
  {
  }

  // ----- changing the profile -----

  /** The frozen member is still the same record and has a staged vector of the target's dimension. */
  predicate MemberReady(env: Env, db: Db, m: Mutation, r: nat)
    requires m.FlipProfile? && r in m.frozen
  {
    && r in db.records && db.records[r].bundleId == m.frozen[r].bundleId && db.records[r].input == m.frozen[r].input
    && r in m.staged && |m.staged[r]| == env.dim(m.target)
  }

  /** The profile is another one, and every frozen member is ready. */
  predicate Flips(env: Env, db: Db, m: Mutation)
    requires m.FlipProfile?
  {
    m.target != ActiveProfile(env, db.meta) && forall r :: r in m.frozen ==> MemberReady(env, db, m, r)
  }

  lemma FlipsIff(env: Env, db: Db, cap: Capability, m: Mutation)
    requires m.FlipProfile?
    ensures
      var prepared := db.(vec := if cap.Vec0? then db.vec[m.target := map[]] else db.vec);
      Flips(env, db, m) <==> m.target != ActiveProfile(env, db.meta) && FlipComplete(env, prepared, m)
  {
    var prepared := db.(vec := if cap.Vec0? then db.vec[m.target := map[]] else db.vec);
    forall r | r in m.frozen ensures MemberMissing(env, prepared, m, r) <==> !MemberReady(env, db, m, r) {}
  }

  /**
   * The profile changes exactly when it is another one and every frozen member is ready; then the members carry
   * their staged vectors and all other records are to be embedded anew. Otherwise no record and no stamp changes.
   */
  lemma FlippedIff(env: Env, db: Db, cap: Capability, profile: Profile, m: Mutation)
    requires Sensible(env) && m.FlipProfile?
    ensures
      var after := Mutated(env, db, cap, profile, m);
      && (forall k :: k != PROFILE_STAMP ==> Stamp(after.meta, k) == Stamp(db.meta, k))
      && (ActiveProfile(env, after.meta) != ActiveProfile(env, db.meta) <==> Flips(env, db, m))
      && (!Flips(env, db, m) ==> after.records == db.records && after.meta == db.meta)
      && (Flips(env, db, m) ==>
            && ActiveProfile(env, after.meta) == m.target && after.records.Keys == db.records.Keys
            && forall r :: r in db.records ==>
                 after.records[r] ==
                 if r in m.frozen && r in m.staged then db.records[r].(embedding := Some(m.staged[r]), embedStatus := Present)
                 else db.records[r].(embedding := None, embedStatus := Pending))
  {
    FlipsIff(env, db, cap, m);
    hide FlippedTable, FlipComplete;
    DistinctStamps();
  }

  /** On a vector connection the flip fills the target's table with exactly the members; no other table changes. */
  lemma FlippedTables(env: Env, db: Db, cap: Capability, profile: Profile, m: Mutation)
    requires m.FlipProfile?
    ensures
      var after := Mutated(env, db, cap, profile, m);
      && (forall p :: p in db.vec && (p != m.target || cap == Brute) ==> p in after.vec && after.vec[p] == db.vec[p])
      && (cap == Vec0 && m.target != ActiveProfile(env, db.meta) ==>
            && m.target in after.vec
            && if Flips(env, db, m) then
                 && after.vec[m.target].Keys == m.frozen.Keys
                 && forall r :: r in m.frozen && r in db.records && r in m.staged ==>
                      after.vec[m.target][r] == VecRow(db.records[r].product, db.records[r].facets, m.staged[r])
               else after.vec[m.target] == map[])
  {
    FlipsIff(env, db, cap, m);
    hide FlippedRecords;
  }
}
