/** The index file as its writer updates it, and the maintenance facts a scheduler reads from it. */
module IndexWriter {
  import opened Prelude
  import opened IndexState

  datatype MaintenanceState = MaintenanceState(
    pendingEmbeddings: nat,
    renderingEpochStale: bool,
    vectorReconciliationOutstanding: bool)

  function PendingRows(records: map<nat, Row>): set<nat> {
    set r | r in records && records[r].embedStatus.Pending?
  }

  /** `readIndexMaintenanceState` of a file that exists: incomplete schemas are an error, stamps compare as text. */
  function Maintenance(db: Db): Result<MaintenanceState, set<Table>> {
    if !(ALL_TABLES <= db.tables) then Err(ALL_TABLES - db.tables)
    else
      Ok(MaintenanceState(
        |PendingRows(db.records)|,
        Stamp(db.meta, RENDERING_STAMP) != Some(RENDERING_TEXT),
        Stamp(db.meta, CLEANUP_STAMP) != Some(CLEANUP_TEXT)))
  }

  class IndexFile {
    const env: Env
    var db: Db
    var renderingEpochStale: bool

    constructor (env: Env, db: Db)
      ensures this.env == env && this.db == db && !renderingEpochStale
    {
      this.env, this.db, renderingEpochStale := env, db, false;
    }

    method BootstrapSchema(cap: Capability, profile: Profile)
      modifies `db
      ensures db == Bootstrapped(old(db), cap, profile)
    {
      db := db.(tables := db.tables + ALL_TABLES);
      if cap.Vec0? && profile !in db.vec {
        db := db.(vec := db.vec[profile := map[]]);
      }
      assert db.tables == ALL_TABLES by { AllTablesListed(db.tables); }
    }

    method StampMeta(profile: Profile, cap: Capability, rendering: RenderingEpoch)
      modifies `db
      ensures db == old(db).(meta := Stamped(env, old(db).meta, profile, cap, rendering))
    {
      if cap.Brute? { db := db.(meta := db.meta - {CLEANUP_STAMP}); }
      db := db.(meta := db.meta[SCHEMA_STAMP := INDEX_SCHEMA_TEXT]);
      db := db.(meta := db.meta[PROFILE_STAMP := env.key(profile)]);
      if rendering.StampCurrent? { db := db.(meta := db.meta[RENDERING_STAMP := RENDERING_TEXT]); }
      db := db.(meta := db.meta[TRANSITION_STAMP := TRANSITION_TEXT]);
      if cap.Vec0? { db := db.(meta := db.meta[CLEANUP_STAMP := CLEANUP_TEXT]); }
    }

    method InvalidateDerivedEmbeddings()
      modifies `db
      ensures db == old(db).(records := Invalidated(old(db).records))
    {
      var pending := db.records.Keys;
      while pending != {}
        invariant db == old(db).(records := db.records)
        invariant pending <= old(db).records.Keys && db.records.Keys == old(db).records.Keys
        invariant forall r :: r in pending ==> db.records[r] == old(db).records[r]
        invariant forall r :: r in old(db).records && r !in pending ==> db.records[r] == Invalidated(old(db).records)[r]
        decreases pending
      {
        var r :| r in pending;
        pending := pending - {r};
        if db.records[r].embedding.Some? || db.records[r].embedStatus.Present? {
          db := db.(records := db.records[r := db.records[r].(embedding := None, embedStatus := Pending)]);
        }
      }
    }

    method RecreateActiveVecTable(profile: Profile)
      modifies `db
      ensures db == old(db).(vec := old(db).vec[profile := map[]])
    {
      db := db.(vec := db.vec - {profile});
      db := db.(vec := db.vec[profile := map[]]);
    }

    method ResetProjectionSchema(cap: Capability, profile: Profile)
      modifies `db
      ensures db == ResetDb(old(db), cap, profile)
      ensures db.tables == ALL_TABLES && db.records == map[] && db.meta == map[]
      ensures db.vec == if cap.Vec0? then old(db).vec[profile := map[]] else old(db).vec
    {
      if cap.Vec0? { db := db.(vec := db.vec - {profile}); }
      db := db.(tables := {}, records := map[], meta := map[]);
      BootstrapSchema(cap, profile);
    }

    /** The body of the opening transaction. */
    method OpeningTransaction(cap: Capability, profile: Profile, resetRequired: bool, stale: bool)
      requires profile == ActiveProfile(env, db.meta)
      modifies `db, `renderingEpochStale
      ensures
        if resetRequired then
          && db == ResetDb(old(db), cap, profile).(meta := Stamped(env, map[], profile, cap, StampCurrent))
          && !renderingEpochStale
        else
          && db == Settled(env, old(db), cap, profile, stale)
          && renderingEpochStale == stale
    {
      renderingEpochStale := stale;
      if resetRequired {
        ResetProjectionSchema(cap, profile);
        StampMeta(profile, cap, StampCurrent);
        renderingEpochStale := false;
        return;
      }
      var invalidationRequired := TransitionRequired(env, db) || stale;
      var rendering := if stale then Preserve else StampCurrent;
      if cap.Brute? {
        if invalidationRequired { InvalidateDerivedEmbeddings(); }
        StampMeta(profile, cap, rendering);
        return;
      }
      if invalidationRequired || !CleanupCurrent(db.meta) {
        if invalidationRequired { InvalidateDerivedEmbeddings(); }
        RecreateActiveVecTable(profile);
      }
      StampMeta(profile, cap, rendering);
    }

    /** `openIndexWriter`: the schema is bootstrapped outside the transaction, everything else inside it. */
    method OpenIndexWriter(cap: Capability, fault: Fault) returns (done: bool)
      modifies `db, `renderingEpochStale
      ensures
        match OpenWriter(env, old(db), cap, fault)
        case Opened(after, stale) => done && db == after && renderingEpochStale == stale
        case OpenFailed(after) => !done && db == after
      ensures done && old(ResetRequired(env, db)) ==> db.records == map[] && !renderingEpochStale
      ensures !done ==> db.records == old(db).records && db.meta == old(db).meta
    {
      var profile := ActiveProfile(env, db.meta);
      var resetRequired := ResetRequired(env, db);
      var stale := RenderingStale(env, db);
      if fault.BootstrapFails? {
        db := db.(tables := db.tables + fault.created);
        return false;
      }
      BootstrapSchema(cap, profile);
      var snapshot := db;
      OpeningTransaction(cap, profile, resetRequired, stale);
      if fault.TransactionFails? {
        db := snapshot;
        return false;
      }
      done := true;
    }

    method CompleteRendering()
      modifies `db, `renderingEpochStale
      ensures !renderingEpochStale
      ensures db == if old(renderingEpochStale) then Completed(old(db)) else old(db)
    {
      if !renderingEpochStale { return; }
      db := db.(meta := db.meta[RENDERING_STAMP := RENDERING_TEXT]);
      renderingEpochStale := false;
    }

    /** `reconcileVecRows`: drop what is no longer canonical, then insert or refresh what is. */
    method ReconcileTable(cap: Capability, profile: Profile)
      modifies `db
      ensures db == Reconciled(env, old(db), cap, profile)
    {
      if cap.Brute? || profile !in db.vec { return; }
      var records := db.records;
      var before := db.vec[profile];
      var canonical := set r | r in records && Canonical(env, profile, records[r]);
      var table: map<nat, VecRow> := map r | r in before && r in canonical :: before[r];
      var pending := canonical;
      while pending != {}
        invariant pending <= canonical
        invariant forall r :: r in table ==> r in canonical
        invariant forall r :: r in canonical && r !in pending ==>
                    r in table && table[r] == ReconciledTable(env, profile, records, before)[r]
        invariant forall r :: r in pending ==> (r in table <==> r in before) && (r in table ==> table[r] == before[r])
        decreases pending
      {
        var r :| r in pending;
        pending := pending - {r};
        if r in before {
          if table[r].facets != records[r].facets {
            table := table[r := table[r].(facets := records[r].facets)];
          }
        } else {
          table := table[r := VecRow(records[r].product, records[r].facets, records[r].embedding.value)];
        }
      }
      assert table == ReconciledTable(env, profile, records, before);
      db := db.(vec := db.vec[profile := table]);
    }

    /** `readIndexMaintenanceState`: an incomplete schema is an error, and else the facts foretell the next open. */
    method ReadIndexMaintenanceState() returns (r: Result<MaintenanceState, set<Table>>)
      ensures r == Maintenance(db)
      ensures r.Err? <==> exists t: Table :: t !in db.tables
      ensures r.Err? ==> forall t: Table :: t in r.error <==> t !in db.tables
      ensures r.Ok? ==> (r.value.pendingEmbeddings == 0 <==> forall n :: n in db.records ==> !db.records[n].embedStatus.Pending?)
      ensures r.Ok? && Sensible(env) && !ResetRequired(env, db) ==> Foretells(env, db, r.value)
    {
      AllTablesListed(db.tables);
      if ALL_TABLES <= db.tables {
        PendingMeans(db.records);
        if Sensible(env) && !ResetRequired(env, db) { MaintenanceForetells(env, db); }
      }
      if !(ALL_TABLES <= db.tables) {
        assert forall t: Table :: t in ALL_TABLES - db.tables <==> t !in db.tables;
        assert exists t: Table :: t in ALL_TABLES - db.tables;
        return Err(ALL_TABLES - db.tables);
      }
      r := Ok(MaintenanceState(
        |PendingRows(db.records)|,
        Stamp(db.meta, RENDERING_STAMP) != Some(RENDERING_TEXT),
        Stamp(db.meta, CLEANUP_STAMP) != Some(CLEANUP_TEXT)));
    }
  }

  lemma AllTablesListed(tables: set<Table>)
    ensures forall t: Table :: t in ALL_TABLES
    ensures tables + ALL_TABLES == ALL_TABLES
  {
    forall t: Table ensures t in ALL_TABLES {
      match t
      case Records => case FtsRecords => case AnchorRows => case GraphNodes => case GraphEdges => case Meta =>
    }
  }

  /** The stamp differs from the current text and still reads as the current number. */
  predicate OtherSpelling(env: Env, stamp: Option<string>) {
    stamp != Some(RENDERING_TEXT) && VersionIs(env, stamp, RENDERING_VERSION)
  }

  /** What the three facts say about the next open of the index, on either kind of connection. */
  predicate Foretells(env: Env, db: Db, m: MaintenanceState) {
    var profile := ActiveProfile(env, db.meta);
    forall cap :: Foretold(env, db, m, profile, cap, OpenWriter(env, db, cap, NoFault))
  }

  /**
   * The open reports a stale epoch when the inspection did, other spellings aside. It never drops pending
   * work; it leaves the records alone unless it is stale or the profile moved. A vector open empties the active
   * table when reconciliation was outstanding, and else keeps every table it had unless it withdraws embeddings.
   */
  predicate Foretold(env: Env, db: Db, m: MaintenanceState, profile: Profile, cap: Capability, o: OpenOutcome) {
    && o.Opened?
    && (o.stale <==> m.renderingEpochStale && !OtherSpelling(env, Stamp(db.meta, RENDERING_STAMP)))
    && PendingRows(db.records) <= PendingRows(o.db.records)
    && (!o.stale && !TransitionRequired(env, db) ==> o.db.records == db.records)
    && (o.stale || TransitionRequired(env, db) ==> forall r :: r in o.db.records ==> o.db.records[r].embedding == None)
    && (m.vectorReconciliationOutstanding && cap.Vec0? ==> profile in o.db.vec && o.db.vec[profile] == map[])
    && (!m.vectorReconciliationOutstanding && !o.stale && !TransitionRequired(env, db) && profile in db.vec ==>
          o.db.vec == db.vec)
  }

  lemma MaintenanceForetells(env: Env, db: Db)
    requires Sensible(env) && ALL_TABLES <= db.tables && !ResetRequired(env, db)
    ensures Foretells(env, db, Maintenance(db).value)
  {
    DistinctStamps();
    assert Records in db.tables;
    var m := Maintenance(db).value;
    var profile := ActiveProfile(env, db.meta);
    forall cap ensures Foretold(env, db, m, profile, cap, OpenWriter(env, db, cap, NoFault)) {
      assert PendingRows(db.records) <= PendingRows(Invalidated(db.records));
    }
  }

  lemma PendingMeans(records: map<nat, Row>)
    ensures |PendingRows(records)| == 0 <==> forall n :: n in records ==> !records[n].embedStatus.Pending?
  {
    if |PendingRows(records)| == 0 {
      forall n | n in records ensures !records[n].embedStatus.Pending? { assert n !in PendingRows(records); }
    } else {
      var n :| n in PendingRows(records);
    }
  }

  // ----- a schema reset -----

  /**
   * A file with another schema version is opened empty: no record survives, no stamp but the fresh ones, and
   * of the vector tables only the active one is emptied, by a connection that can touch it.
   */
  lemma ResetLeavesNothing(env: Env, db: Db, cap: Capability)
    requires Sensible(env) && ResetRequired(env, db)
    ensures
      var o, profile := OpenWriter(env, db, cap, NoFault), ActiveProfile(env, db.meta);
      && o.Opened? && !o.stale && o.db.tables == ALL_TABLES && o.db.records == map[]
      && (forall k :: k in o.db.meta ==>
            k in {SCHEMA_STAMP, PROFILE_STAMP, RENDERING_STAMP, TRANSITION_STAMP} || (k == CLEANUP_STAMP && cap.Vec0?))
      && !ResetRequired(env, o.db) && ActiveProfile(env, o.db.meta) == profile
      && (cap.Vec0? ==> o.db.vec == db.vec[profile := map[]])
      && (cap.Brute? ==> o.db.vec == db.vec)
      && Maintenance(o.db) == Ok(MaintenanceState(0, false, cap.Brute?))
  {
    StampedReads(env, map[], ActiveProfile(env, db.meta), cap, StampCurrent);
    DistinctStamps();
  }

  /** An open that fails, at whichever point, changes no record and no stamp and empties no vector table. */
  lemma FailedOpenKeeps(env: Env, db: Db, cap: Capability, fault: Fault)
    requires !fault.NoFault?
    ensures
      var o := OpenWriter(env, db, cap, fault);
      && o.OpenFailed? && o.db.records == db.records && o.db.meta == db.meta && db.tables <= o.db.tables
      && (forall p :: p in db.vec ==> p in o.db.vec && o.db.vec[p] == db.vec[p])
      && (forall p :: p in o.db.vec && p !in db.vec ==> o.db.vec[p] == map[])
      && (fault.BootstrapFails? ==> o.db.tables == db.tables + fault.created && o.db.vec == db.vec)
      && (fault.TransactionFails? ==> o.db.tables == ALL_TABLES && (cap.Vec0? ==> ActiveProfile(env, db.meta) in o.db.vec))
  {
    AllTablesListed(db.tables);
  }

  // ----- the rendering epoch -----

  /** A writer that opens on a stale rendering stamp says so and leaves no record with an embedding. */
  lemma StaleOpenClears(env: Env, db: Db, cap: Capability)
    requires RenderingStale(env, db)
    ensures
      var o := OpenWriter(env, db, cap, NoFault);
      && o.Opened? && o.stale
      && (forall r :: r in o.db.records ==> o.db.records[r].embedding == None)
      && Stamp(o.db.meta, RENDERING_STAMP) == Stamp(db.meta, RENDERING_STAMP)
  {
    DistinctStamps();
  }

  predicate StaleAs(env: Env, s: State, stamp: Option<string>) {
    && RenderingStale(env, s.db) && Stamp(s.db.meta, RENDERING_STAMP) == stamp
    && (s.conn.Some? ==> s.conn.value.stale)
  }

  lemma StaleKept(env: Env, s: State, e: Event, stamp: Option<string>)
    requires Sensible(env) && StaleAs(env, s, stamp) && !e.CompleteRenderingEpoch?
    ensures StaleAs(env, Next(env, s, e), stamp)
  {
    DistinctStamps();
    match e
    case Open(cap, fault) => AllTablesListed(s.db.tables);
    case Mutate(m, _) => if s.conn.Some? { StampsKept(env, s.db, s.conn.value.cap, s.conn.value.profile, m); }
    case CompleteRenderingEpoch =>
    case Close =>
  }

  lemma StampsKept(env: Env, db: Db, cap: Capability, profile: Profile, m: Mutation)
    ensures
      var after := Mutated(env, db, cap, profile, m);
      && after.tables == db.tables
      && Stamp(after.meta, RENDERING_STAMP) == Stamp(db.meta, RENDERING_STAMP)
      && Stamp(after.meta, SCHEMA_STAMP) == Stamp(db.meta, SCHEMA_STAMP)
      && Stamp(after.meta, CLEANUP_STAMP) == Stamp(db.meta, CLEANUP_STAMP)
  {
    DistinctStamps();
  }

  /**
   * A stale rendering stamp outlives every run of opens, failures and mutations that does not complete the
   * epoch: the stamp is the same text at the end, so the next writer again reports it and again starts
   * from records without embeddings.
   */
  lemma StaleUntilCompleted(env: Env, start: State, events: seq<Event>)
    requires Sensible(env) && start.conn == None && RenderingStale(env, start.db)
    requires forall e :: e in events ==> !e.CompleteRenderingEpoch?
    ensures
      var end := RunSteps(Stepper(env), start, events);
      && RenderingStale(env, end.db)
      && Stamp(end.db.meta, RENDERING_STAMP) == Stamp(start.db.meta, RENDERING_STAMP)
      && (end.conn.Some? ==> end.conn.value.stale)
  {
    hide Next, RenderingStale;
    var stamp := Stamp(start.db.meta, RENDERING_STAMP);
    var inv := (s: State) => StaleAs(env, s, stamp);
    var allowed := (e: Event) => !e.CompleteRenderingEpoch?;
    forall s, e | inv(s) && allowed(e) ensures inv(Stepper(env)(s, e)) { StaleKept(env, s, e, stamp); }
    RunInvariant(Stepper(env), start, events, inv, allowed);
  }

  /** Completing the epoch is what ends it: the next open is not stale. */
  lemma CompletionEndsIt(env: Env, db: Db, cap: Capability, next: Capability)
    requires Sensible(env) && RenderingStale(env, db)
    ensures
      var s := Next(env, Next(env, State(db, None), Open(cap, NoFault)), CompleteRenderingEpoch);
      && OpenWriter(env, s.db, next, NoFault).Opened? && !OpenWriter(env, s.db, next, NoFault).stale
  {
    DistinctStamps();
  }

  /**
   * The inspection compares stamps as text, the writer as numbers: on an index that needs no reset they
   * disagree exactly when the stamp is another spelling of the current version.
   */
  lemma StaleReadingIff(env: Env, db: Db)
    requires Sensible(env) && db.tables == ALL_TABLES && !ResetRequired(env, db)
    ensures Maintenance(db).Ok?
    ensures RenderingStale(env, db) ==> Maintenance(db).value.renderingEpochStale
    ensures Maintenance(db).value.renderingEpochStale && !RenderingStale(env, db) <==>
            OtherSpelling(env, Stamp(db.meta, RENDERING_STAMP))
  {
    assert Records in db.tables;
  }

  // ----- the cleanup marker -----

  /** Whatever the file held, a vector open followed by completion leaves nothing stale and nothing outstanding. */
  lemma Vec0OpenConverges(env: Env, db: Db)
    requires Sensible(env)
    ensures
      var s := Next(env, Next(env, State(db, None), Open(Vec0, NoFault)), CompleteRenderingEpoch);
      && Maintenance(s.db).Ok?
      && !Maintenance(s.db).value.renderingEpochStale
      && !Maintenance(s.db).value.vectorReconciliationOutstanding
  {
    DistinctStamps();
    var s := Next(env, State(db, None), Open(Vec0, NoFault));
    OpenedReads(env, db, Vec0);
    assert s.conn.Some?;
  }

  lemma OpenedReads(env: Env, db: Db, cap: Capability)
    requires Sensible(env)
    ensures
      var o := OpenWriter(env, db, cap, NoFault);
      && o.Opened? && o.db.tables == ALL_TABLES
      && (CleanupCurrent(o.db.meta) <==> cap.Vec0?)
      && (!o.stale ==> Stamp(o.db.meta, RENDERING_STAMP) == Some(RENDERING_TEXT))
  {
    DistinctStamps();
  }

  predicate Unvouched(s: State) { !CleanupCurrent(s.db.meta) }

  predicate OpensVec0(e: Event) { e.Open? && e.cap.Vec0? && e.fault.NoFault? }

  lemma UnvouchedKept(env: Env, s: State, e: Event)
    requires Sensible(env) && Unvouched(s) && !OpensVec0(e)
    ensures Unvouched(Next(env, s, e))
  {
    DistinctStamps();
    match e
    case Open(cap, fault) => if fault.NoFault? { OpenedReads(env, s.db, cap); }
    case Mutate(m, _) => if s.conn.Some? { StampsKept(env, s.db, s.conn.value.cap, s.conn.value.profile, m); }
    case CompleteRenderingEpoch =>
    case Close =>
  }

  /** A brute open leaves vector work outstanding, and so does every run after it until a vector writer opens. */
  lemma BruteLeavesWork(env: Env, db: Db, events: seq<Event>)
    requires Sensible(env) && forall e :: e in events ==> !OpensVec0(e)
    ensures
      var end := RunSteps(Stepper(env), Next(env, State(db, None), Open(Brute, NoFault)), events);
      !CleanupCurrent(end.db.meta)
      && (Maintenance(end.db).Ok? ==> Maintenance(end.db).value.vectorReconciliationOutstanding)
  {
    hide Next, OpenWriter;
    var start := Next(env, State(db, None), Open(Brute, NoFault));
    assert Unvouched(start) by { BruteOpened(env, db); }
    var inv := (s: State) => Unvouched(s);
    var allowed := (e: Event) => !OpensVec0(e);
    forall s, e | inv(s) && allowed(e) ensures inv(Stepper(env)(s, e)) { UnvouchedKept(env, s, e); }
    RunInvariant(Stepper(env), start, events, inv, allowed);
  }

  lemma BruteOpened(env: Env, db: Db)
    requires Sensible(env)
    ensures Unvouched(Next(env, State(db, None), Open(Brute, NoFault)))
  {
    OpenedReads(env, db, Brute);
  }
}
