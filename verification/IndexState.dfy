/**
 * The derived index as a writer keeps it: records, one vector table per embedding profile, and the meta
 * stamps that say what may be trusted. Opening a writer is a state machine over those stamps.
 */
module IndexState {
  import opened Prelude

  /** The closed list of profiles whose vector tables belong to the schema. */
  datatype Profile = DefaultProfile | StaticFloorProfile

  datatype Capability = Vec0 | Brute

  datatype Table = Records | FtsRecords | AnchorRows | GraphNodes | GraphEdges | Meta

  const ALL_TABLES: set<Table> := {Records, FtsRecords, AnchorRows, GraphNodes, GraphEdges, Meta}

  type Vector = seq<real>

  datatype EmbedStatus = Pending | Present | Suppressed | Scrubbed

  datatype Facets = Facets(scopeTier: string, scopeKey: string, status: string)

  datatype Row = Row(
    bundleId: string,
    product: string,
    facets: Facets,
    input: string,
    embedStatus: EmbedStatus,
    embedding: Option<Vector>)

  datatype VecRow = VecRow(product: string, facets: Facets, embedding: Vector)

  datatype Db = Db(
    tables: set<Table>,
    meta: map<string, string>,
    records: map<nat, Row>,
    vec: map<Profile, map<nat, VecRow>>)

  const SCHEMA_STAMP := "index_schema_version"
  const PROFILE_STAMP := "embedding_profile"
  const RENDERING_STAMP := "rendering_schema_version"
  const TRANSITION_STAMP := "embedding_transition_epoch"
  const CLEANUP_STAMP := "embedding_vec_cleanup_epoch"

  const INDEX_SCHEMA_VERSION := 2
  const INDEX_SCHEMA_TEXT := "2"
  const RENDERING_VERSION := 2
  const RENDERING_TEXT := "2"
  const TRANSITION_TEXT := "1"
  const CLEANUP_TEXT := "1"

  lemma DistinctStamps()
    ensures SCHEMA_STAMP != PROFILE_STAMP && SCHEMA_STAMP != RENDERING_STAMP && SCHEMA_STAMP != TRANSITION_STAMP
    ensures SCHEMA_STAMP != CLEANUP_STAMP && PROFILE_STAMP != RENDERING_STAMP && PROFILE_STAMP != TRANSITION_STAMP
    ensures PROFILE_STAMP != CLEANUP_STAMP && RENDERING_STAMP != TRANSITION_STAMP && RENDERING_STAMP != CLEANUP_STAMP
    ensures TRANSITION_STAMP != CLEANUP_STAMP
  {
    assert |SCHEMA_STAMP| == 20 && |PROFILE_STAMP| == 17 && |RENDERING_STAMP| == 24;
    assert |TRANSITION_STAMP| == 26 && |CLEANUP_STAMP| == 27;
  }

  /** `Number(text)` where it is finite, the text of a profile key, and the dimension of a profile. */
  datatype Env = Env(number: string -> Option<real>, key: Profile -> string, dim: Profile -> nat)

  ghost predicate Sensible(env: Env) {
    && env.number(INDEX_SCHEMA_TEXT) == Some(INDEX_SCHEMA_VERSION as real)
    && env.number(RENDERING_TEXT) == Some(RENDERING_VERSION as real)
    && env.key(DefaultProfile) != env.key(StaticFloorProfile)
  }

  function Stamp(meta: map<string, string>, k: string): Option<string> {
    if k in meta then Some(meta[k]) else None
  }

  /** `resolveActiveProfile`: an absent or unknown stamp means the default profile. */
  function ActiveProfile(env: Env, meta: map<string, string>): Profile {
    if Stamp(meta, PROFILE_STAMP) == Some(env.key(DefaultProfile)) then DefaultProfile
    else if Stamp(meta, PROFILE_STAMP) == Some(env.key(StaticFloorProfile)) then StaticFloorProfile
    else DefaultProfile
  }

  predicate CleanupCurrent(meta: map<string, string>) { Stamp(meta, CLEANUP_STAMP) == Some(CLEANUP_TEXT) }

  /** A version stamp is compared as a number when a writer opens. */
  predicate VersionIs(env: Env, stamp: Option<string>, version: int) {
    stamp.Some? && env.number(stamp.value) == Some(version as real)
  }

  predicate ResetRequired(env: Env, db: Db) {
    db.tables != {} && !VersionIs(env, Stamp(db.meta, SCHEMA_STAMP), INDEX_SCHEMA_VERSION)
  }

  predicate RenderingStale(env: Env, db: Db) {
    && db.tables != {}
    && !ResetRequired(env, db)
    && !VersionIs(env, Stamp(db.meta, RENDERING_STAMP), RENDERING_VERSION)
  }

  predicate TransitionRequired(env: Env, db: Db) {
    || Stamp(db.meta, PROFILE_STAMP) != Some(env.key(ActiveProfile(env, db.meta)))
    || Stamp(db.meta, TRANSITION_STAMP) != Some(TRANSITION_TEXT)
  }

  // ----- the pieces of an open -----

  function Bootstrapped(db: Db, cap: Capability, profile: Profile): Db {
    db.(tables := ALL_TABLES,
        vec := if cap.Vec0? && profile !in db.vec then db.vec[profile := map[]] else db.vec)
  }

  function Invalidated(records: map<nat, Row>): map<nat, Row> {
    map r | r in records ::
      if records[r].embedding.Some? || records[r].embedStatus.Present?
      then records[r].(embedding := None, embedStatus := Pending) else records[r]
  }

  datatype RenderingEpoch = StampCurrent | Preserve

  function Stamped(env: Env, meta: map<string, string>, profile: Profile, cap: Capability, rendering: RenderingEpoch)
    : map<string, string>
  {
    var cleared := if cap.Brute? then meta - {CLEANUP_STAMP} else meta;
    var versioned := cleared[SCHEMA_STAMP := INDEX_SCHEMA_TEXT][PROFILE_STAMP := env.key(profile)];
    var rendered := if rendering.StampCurrent? then versioned[RENDERING_STAMP := RENDERING_TEXT] else versioned;
    var moved := rendered[TRANSITION_STAMP := TRANSITION_TEXT];
    if cap.Vec0? then moved[CLEANUP_STAMP := CLEANUP_TEXT] else moved
  }

  /** `resetProjectionSchema`: only the active vector table goes, and only when it can be touched. */
  function ResetDb(db: Db, cap: Capability, profile: Profile): Db {
    Bootstrapped(Db({}, map[], map[], if cap.Vec0? then db.vec - {profile} else db.vec), cap, profile)
  }

  /** What goes wrong: a table that cannot be created, or anything inside the transaction. */
  datatype Fault = NoFault | BootstrapFails(created: set<Table>) | TransactionFails

  datatype OpenOutcome = Opened(db: Db, stale: bool) | OpenFailed(db: Db)

  /** The transaction of an open without a schema reset, on the bootstrapped database. */
  function Settled(env: Env, db: Db, cap: Capability, profile: Profile, stale: bool): Db {
    var invalidate := TransitionRequired(env, db) || stale;
    var records := if invalidate then Invalidated(db.records) else db.records;
    var vec := if cap.Vec0? && (invalidate || !CleanupCurrent(db.meta)) then db.vec[profile := map[]] else db.vec;
    db.(records := records, vec := vec,
        meta := Stamped(env, db.meta, profile, cap, if stale then Preserve else StampCurrent))
  }

  function OpenWriter(env: Env, db: Db, cap: Capability, fault: Fault): OpenOutcome {
    var profile := ActiveProfile(env, db.meta);
    match fault
    case BootstrapFails(created) => OpenFailed(db.(tables := db.tables + created))
    case TransactionFails => OpenFailed(Bootstrapped(db, cap, profile))
    case NoFault =>
      if ResetRequired(env, db) then
        var blank := ResetDb(Bootstrapped(db, cap, profile), cap, profile);
        Opened(blank.(meta := Stamped(env, blank.meta, profile, cap, StampCurrent)), false)
      else
        var stale := RenderingStale(env, db);
        Opened(Settled(env, Bootstrapped(db, cap, profile), cap, profile, stale), stale)
  }

  // ----- what a writer does to an open index -----

  predicate DeadStatus(status: string) { status == "superseded" || status == "deprecated" }

  function WithoutRow(vec: map<Profile, map<nat, VecRow>>, rowid: nat): map<Profile, map<nat, VecRow>> {
    map p | p in vec :: vec[p] - {rowid}
  }

  /** Deleting from a materialised vector table fails on a connection that could not load the extension. */
  predicate VecDeleteFails(db: Db, cap: Capability) { cap.Brute? && db.vec != map[] }

  datatype Mutation =
    | ProjectBundle(rowid: nat, bundleId: string, product: string, facets: Facets, input: string)
    | RefreshRendering(rowid: nat)
    | StoreEmbedding(rowid: nat, vector: Vector)
    | RemoveRecord(rowid: nat)
    | ReconcileVecRows
    | FlipProfile(target: Profile, frozen: map<nat, Member>, staged: map<nat, Vector>)

  /** A record as the profile migration froze it. */
  datatype Member = Member(bundleId: string, input: string)

  /** `rowid` is the row of this bundle, or a free row for a bundle that has none. */
  predicate RowFor(records: map<nat, Row>, rowid: nat, bundleId: string) {
    if rowid in records then records[rowid].bundleId == bundleId
    else forall r :: r in records ==> records[r].bundleId != bundleId
  }

  function Upserted(records: map<nat, Row>, m: Mutation): map<nat, Row>
    requires m.ProjectBundle?
  {
    var row :=
      if m.rowid in records then records[m.rowid].(product := m.product, facets := m.facets, input := m.input)
      else Row(m.bundleId, m.product, m.facets, m.input, Pending, None);
    records[m.rowid := row]
  }

  function ScrubbedRow(row: Row): Row {
    row.(embedding := None, embedStatus := if row.embedStatus.Suppressed? then Suppressed else Scrubbed)
  }

  function RefreshedVec(vec: map<Profile, map<nat, VecRow>>, cap: Capability, profile: Profile, rowid: nat, facets: Facets)
    : map<Profile, map<nat, VecRow>>
  {
    if cap.Vec0? && profile in vec && rowid in vec[profile] then
      WithVecRow(vec, profile, rowid, vec[profile][rowid].(facets := facets))
    else vec
  }

  function Projected(db: Db, cap: Capability, profile: Profile, m: Mutation): Db
    requires m.ProjectBundle?
  {
    if !RowFor(db.records, m.rowid, m.bundleId) then db
    else
      var records := Upserted(db.records, m);
      var row := records[m.rowid];
      if DeadStatus(m.facets.status) then
        if VecDeleteFails(db, cap) then db
        else db.(records := records[m.rowid := ScrubbedRow(row)], vec := WithoutRow(db.vec, m.rowid))
      else
        var live := if row.embedStatus.Scrubbed? then row.(embedStatus := Pending) else row;
        db.(records := records[m.rowid := live], vec := RefreshedVec(db.vec, cap, profile, m.rowid, m.facets))
  }

  /** The row loses its embedding because its rendering changed; the vector table is not touched. */
  function Refreshed(db: Db, rowid: nat): Db {
    if rowid !in db.records || DeadStatus(db.records[rowid].facets.status) then db
    else
      var row := db.records[rowid];
      db.(records := db.records[rowid :=
        row.(embedding := None, embedStatus := if row.embedStatus.Suppressed? then Suppressed else Pending)])
  }

  function WithVecRow(vec: map<Profile, map<nat, VecRow>>, profile: Profile, rowid: nat, row: VecRow)
    : map<Profile, map<nat, VecRow>>
  {
    if profile !in vec then vec
    else
      var table: map<nat, VecRow> := vec[profile][rowid := row];
      vec[profile := table]
  }

  function Stored(env: Env, db: Db, cap: Capability, profile: Profile, rowid: nat, vector: Vector): Db {
    if |vector| != env.dim(profile) || rowid !in db.records then db
    else
      var row := db.records[rowid].(embedding := Some(vector), embedStatus := Present);
      db.(records := db.records[rowid := row],
          vec := if cap.Vec0? then WithVecRow(db.vec, profile, rowid, VecRow(row.product, row.facets, vector)) else db.vec)
  }

  function Removed(db: Db, cap: Capability, rowid: nat): Db {
    if rowid !in db.records || VecDeleteFails(db, cap) then db
    else db.(records := db.records - {rowid}, vec := WithoutRow(db.vec, rowid))
  }

  /** A record whose embedding the active vector table should hold. */
  predicate Canonical(env: Env, profile: Profile, row: Row) {
    row.embedding.Some? && row.embedStatus.Present? && |row.embedding.value| == env.dim(profile)
  }

  function ReconciledTable(env: Env, profile: Profile, records: map<nat, Row>, table: map<nat, VecRow>): map<nat, VecRow> {
    map r | r in records && Canonical(env, profile, records[r]) ::
      if r in table then table[r].(facets := records[r].facets)
      else VecRow(records[r].product, records[r].facets, records[r].embedding.value)
  }

  function Reconciled(env: Env, db: Db, cap: Capability, profile: Profile): Db {
    if cap.Brute? || profile !in db.vec then db
    else db.(vec := db.vec[profile := ReconciledTable(env, profile, db.records, db.vec[profile])])
  }

  predicate MemberMissing(env: Env, db: Db, m: Mutation, rowid: nat)
    requires m.FlipProfile? && rowid in m.frozen
  {
    || rowid !in db.records
    || db.records[rowid].bundleId != m.frozen[rowid].bundleId
    || db.records[rowid].input != m.frozen[rowid].input
    || rowid !in m.staged
    || |m.staged[rowid]| != env.dim(m.target)
  }

  predicate FlipComplete(env: Env, db: Db, m: Mutation)
    requires m.FlipProfile?
  {
    forall r :: r in m.frozen ==> !MemberMissing(env, db, m, r)
  }

  function FlippedRecords(records: map<nat, Row>, m: Mutation): map<nat, Row>
    requires m.FlipProfile? && forall r :: r in m.frozen ==> r in m.staged
  {
    map r | r in records ::
      if r in m.frozen then records[r].(embedding := Some(m.staged[r]), embedStatus := Present)
      else records[r].(embedding := None, embedStatus := Pending)
  }

  function FlippedTable(records: map<nat, Row>, m: Mutation): map<nat, VecRow>
    requires m.FlipProfile? && forall r :: r in m.frozen ==> r in m.staged && r in records
  {
    map r | r in m.frozen :: VecRow(records[r].product, records[r].facets, m.staged[r])
  }

  /** Prepare the target's vector table, then flip only when every frozen member is staged and unchanged. */
  function Flipped(env: Env, db: Db, cap: Capability, m: Mutation): Db
    requires m.FlipProfile?
  {
    if m.target == ActiveProfile(env, db.meta) then db
    else
      var prepared := db.(vec := if cap.Vec0? then db.vec[m.target := map[]] else db.vec);
      if !FlipComplete(env, prepared, m) then prepared
      else
        prepared.(records := FlippedRecords(db.records, m),
                  vec := if cap.Vec0? then prepared.vec[m.target := FlippedTable(db.records, m)] else prepared.vec,
                  meta := db.meta[PROFILE_STAMP := env.key(m.target)])
  }

  function Mutated(env: Env, db: Db, cap: Capability, profile: Profile, m: Mutation): Db {
    match m
    case ProjectBundle(_, _, _, _, _) => Projected(db, cap, profile, m)
    case RefreshRendering(rowid) => Refreshed(db, rowid)
    case StoreEmbedding(rowid, vector) => Stored(env, db, cap, profile, rowid, vector)
    case RemoveRecord(rowid) => Removed(db, cap, rowid)
    case ReconcileVecRows => Reconciled(env, db, cap, profile)
    case FlipProfile(_, _, _) => Flipped(env, db, cap, m)
  }

  // ----- runs of sessions -----

  datatype Conn = Conn(cap: Capability, profile: Profile, stale: bool)

  datatype State = State(db: Db, conn: Option<Conn>)

  /** `lost` marks a mutation whose transaction rolled back. */
  datatype Event =
    | Open(cap: Capability, fault: Fault)
    | Mutate(mutation: Mutation, lost: bool)
    | CompleteRenderingEpoch
    | Close

  function Completed(db: Db): Db { db.(meta := db.meta[RENDERING_STAMP := RENDERING_TEXT]) }

  /** One event. A second writer is excluded by the lease; a profile flip ends its session. */
  function Next(env: Env, s: State, e: Event): State {
    match e
    case Open(cap, fault) =>
      if s.conn.Some? then s
      else
        (match OpenWriter(env, s.db, cap, fault)
         case OpenFailed(db) => State(db, None)
         case Opened(db, stale) => State(db, Some(Conn(cap, ActiveProfile(env, db.meta), stale))))
    case Mutate(m, lost) =>
      if s.conn.None? || lost then s
      else
        State(Mutated(env, s.db, s.conn.value.cap, s.conn.value.profile, m), if m.FlipProfile? then None else s.conn)
    case CompleteRenderingEpoch =>
      if s.conn.None? || !s.conn.value.stale then s
      else State(Completed(s.db), Some(s.conn.value.(stale := false)))
    case Close => s.(conn := None)
  }

  function Stepper(env: Env): (State, Event) -> State { (s: State, e: Event) => Next(env, s, e) }

  // ----- the marker invariant -----

  /** A vector row stands for its record, or for one whose embedding has been withdrawn since. */
  predicate RowSound(records: map<nat, Row>, table: map<nat, VecRow>, r: nat)
    requires r in table
  {
    r in records && (records[r].embedding == None || records[r].embedding == Some(table[r].embedding))
  }

  predicate TableSound(records: map<nat, Row>, table: map<nat, VecRow>) {
    forall r :: r in table ==> RowSound(records, table, r)
  }

  /** A current cleanup marker vouches for the active vector table. */
  predicate Sound(env: Env, db: Db) {
    CleanupCurrent(db.meta) ==>
      ActiveProfile(env, db.meta) in db.vec && TableSound(db.records, db.vec[ActiveProfile(env, db.meta)])
  }

  /** A brute connection works without the marker, a vector connection with it, both on the active profile. */
  predicate ConnSound(env: Env, s: State) {
    s.conn.Some? ==>
      && s.conn.value.profile == ActiveProfile(env, s.db.meta)
      && (s.conn.value.cap.Vec0? <==> CleanupCurrent(s.db.meta))
      && s.db.tables == ALL_TABLES
      && (!s.conn.value.stale ==> Stamp(s.db.meta, RENDERING_STAMP) == Some(RENDERING_TEXT))
  }

  predicate Inv(env: Env, s: State) { Sound(env, s.db) && ConnSound(env, s) }

  lemma StampedReads(env: Env, meta: map<string, string>, profile: Profile, cap: Capability, rendering: RenderingEpoch)
    requires Sensible(env)
    ensures
      var after := Stamped(env, meta, profile, cap, rendering);
      && ActiveProfile(env, after) == profile
      && (CleanupCurrent(after) <==> cap.Vec0?)
      && Stamp(after, SCHEMA_STAMP) == Some(INDEX_SCHEMA_TEXT)
      && Stamp(after, PROFILE_STAMP) == Some(env.key(profile))
      && Stamp(after, TRANSITION_STAMP) == Some(TRANSITION_TEXT)
      && Stamp(after, RENDERING_STAMP) ==
         (if rendering.StampCurrent? then Some(RENDERING_TEXT) else Stamp(meta, RENDERING_STAMP))
      && (cap.Brute? ==> CLEANUP_STAMP !in after)
  {
    DistinctStamps();
  }

  lemma OpenedSound(env: Env, db: Db, cap: Capability, fault: Fault)
    requires Sensible(env) && Sound(env, db)
    ensures
      var o := OpenWriter(env, db, cap, fault);
      && Sound(env, o.db)
      && (o.Opened? ==> Inv(env, State(o.db, Some(Conn(cap, ActiveProfile(env, o.db.meta), o.stale)))))
  {
    var profile := ActiveProfile(env, db.meta);
    if fault.NoFault? {
      if ResetRequired(env, db) {
        StampedReads(env, map[], profile, cap, StampCurrent);
      } else {
        StampedReads(env, db.meta, profile, cap, if RenderingStale(env, db) then Preserve else StampCurrent);
      }
    }
  }

  lemma FlippedSound(env: Env, db: Db, cap: Capability, m: Mutation)
    requires Sensible(env) && m.FlipProfile? && Sound(env, db) && (cap.Vec0? <==> CleanupCurrent(db.meta))
    ensures Sound(env, Flipped(env, db, cap, m))
  {
    DistinctStamps();
    var prepared := db.(vec := if cap.Vec0? then db.vec[m.target := map[]] else db.vec);
    if m.target != ActiveProfile(env, db.meta) && FlipComplete(env, prepared, m) {
      var after := Flipped(env, db, cap, m);
      assert ActiveProfile(env, after.meta) == m.target;
      if cap.Vec0? {
        forall r | r in after.vec[m.target] ensures RowSound(after.records, after.vec[m.target], r) {
          assert !MemberMissing(env, prepared, m, r);
        }
      }
    }
  }

  lemma MutatedSound(env: Env, db: Db, cap: Capability, profile: Profile, m: Mutation)
    requires Sensible(env) && Sound(env, db) && profile == ActiveProfile(env, db.meta)
    requires cap.Vec0? <==> CleanupCurrent(db.meta)
    ensures Sound(env, Mutated(env, db, cap, profile, m))
    ensures !m.FlipProfile? ==> Mutated(env, db, cap, profile, m).meta == db.meta
    ensures Mutated(env, db, cap, profile, m).tables == db.tables
  {
    if m.FlipProfile? { FlippedSound(env, db, cap, m); }
  }

  lemma StepSound(env: Env, s: State, e: Event)
    requires Sensible(env) && Inv(env, s)
    ensures Inv(env, Next(env, s, e))
  {
    hide OpenWriter, Mutated;
    match e
    case Open(cap, fault) => OpenedSound(env, s.db, cap, fault);
    case Mutate(m, lost) =>
      if s.conn.Some? { MutatedSound(env, s.db, s.conn.value.cap, s.conn.value.profile, m); }
    case CompleteRenderingEpoch => DistinctStamps();
    case Close =>
  }

  /**
   * Over every run of opens on either kind of connection, failed and rolled-back opens, and mutations, a
   * current cleanup marker means that every row of the active vector table belongs to a record and holds
   * that record's embedding or one withdrawn since.
   */
  lemma RunSound(env: Env, start: State, events: seq<Event>)
    requires Sensible(env) && Inv(env, start)
    ensures Inv(env, RunSteps(Stepper(env), start, events))
  {
    hide Next;
    var inv := (s: State) => Inv(env, s);
    forall s, e | inv(s) ensures inv(Stepper(env)(s, e)) { StepSound(env, s, e); }
    RunInvariant(Stepper(env), start, events, inv, (e: Event) => true);
  }

  // ----- what the marker does not say -----

  /** Every row of the table holds its record's present embedding. */
  predicate Strict(records: map<nat, Row>, table: map<nat, VecRow>) {
    forall r :: r in table ==> r in records && records[r].embedding == Some(table[r].embedding)
  }

  /** The mutation withdraws an embedding whose vector row it leaves in place. */
  predicate Strands(db: Db, profile: Profile, m: Mutation) {
    && m.RefreshRendering? && m.rowid in db.records && profile in db.vec && m.rowid in db.vec[profile]
    && !DeadStatus(db.records[m.rowid].facets.status)
  }

  /** On a vector connection, equality with the records is kept by everything except a rendering refresh of an embedded row. */
  lemma StrictKeptIff(env: Env, db: Db, m: Mutation)
    requires Sensible(env)
    requires var p := ActiveProfile(env, db.meta); p in db.vec && Strict(db.records, db.vec[p])
    ensures
      var p := ActiveProfile(env, db.meta);
      var after := Mutated(env, db, Vec0, p, m);
      var q := ActiveProfile(env, after.meta);
      q in after.vec && (Strict(after.records, after.vec[q]) <==> !Strands(db, p, m))
  {
    var p := ActiveProfile(env, db.meta);
    var after := Mutated(env, db, Vec0, p, m);
    if m.FlipProfile? {
      StrictFlip(env, db, m);
    } else if Strands(db, p, m) {
      assert m.rowid in after.vec[p] && after.records[m.rowid].embedding == None;
    }
  }

  lemma StrictFlip(env: Env, db: Db, m: Mutation)
    requires Sensible(env) && m.FlipProfile?
    requires var p := ActiveProfile(env, db.meta); p in db.vec && Strict(db.records, db.vec[p])
    ensures
      var after := Flipped(env, db, Vec0, m);
      var q := ActiveProfile(env, after.meta);
      q in after.vec && Strict(after.records, after.vec[q])
  {
    DistinctStamps();
    var prepared := db.(vec := db.vec[m.target := map[]]);
    if m.target != ActiveProfile(env, db.meta) && FlipComplete(env, prepared, m) {
      var after := Flipped(env, db, Vec0, m);
      assert ActiveProfile(env, after.meta) == m.target;
      forall r | r in after.vec[m.target]
        ensures r in after.records && after.records[r].embedding == Some(after.vec[m.target][r].embedding)
      {
        assert !MemberMissing(env, prepared, m, r);
      }
    }
  }

  /** Every vector row is filed under its record's product. */
  predicate ProductsAgree(records: map<nat, Row>, table: map<nat, VecRow>) {
    forall r :: r in table && r in records ==> table[r].product == records[r].product
  }

  /** The mutation moves a live record to another product while its vector row stays filed under the old one. */
  predicate Drifts(db: Db, profile: Profile, m: Mutation) {
    && m.ProjectBundle? && RowFor(db.records, m.rowid, m.bundleId) && m.rowid in db.records
    && profile in db.vec && m.rowid in db.vec[profile]
    && !DeadStatus(m.facets.status) && m.product != db.records[m.rowid].product
  }

  lemma ProductsKeptIff(env: Env, db: Db, m: Mutation)
    requires Sensible(env)
    requires var p := ActiveProfile(env, db.meta);
      p in db.vec && TableSound(db.records, db.vec[p]) && ProductsAgree(db.records, db.vec[p])
    ensures
      var p := ActiveProfile(env, db.meta);
      var after := Mutated(env, db, Vec0, p, m);
      var q := ActiveProfile(env, after.meta);
      q in after.vec && (ProductsAgree(after.records, after.vec[q]) <==> !Drifts(db, p, m))
  {
    var p := ActiveProfile(env, db.meta);
    var after := Mutated(env, db, Vec0, p, m);
    if m.FlipProfile? {
      ProductsFlip(env, db, m);
    } else if Drifts(db, p, m) {
      assert m.rowid in after.vec[p] && m.rowid in after.records;
      assert after.vec[p][m.rowid].product != after.records[m.rowid].product;
    }
  }

  lemma ProductsFlip(env: Env, db: Db, m: Mutation)
    requires Sensible(env) && m.FlipProfile?
    requires var p := ActiveProfile(env, db.meta);
      p in db.vec && TableSound(db.records, db.vec[p]) && ProductsAgree(db.records, db.vec[p])
    ensures
      var after := Flipped(env, db, Vec0, m);
      var q := ActiveProfile(env, after.meta);
      q in after.vec && ProductsAgree(after.records, after.vec[q])
  {
    DistinctStamps();
    var prepared := db.(vec := db.vec[m.target := map[]]);
    if m.target != ActiveProfile(env, db.meta) && FlipComplete(env, prepared, m) {
      assert ActiveProfile(env, Flipped(env, db, Vec0, m).meta) == m.target;
    }
  }

  /** The table holds exactly the canonical embeddings, each under its record's product. */
  ghost predicate Exact(env: Env, profile: Profile, records: map<nat, Row>, table: map<nat, VecRow>) {
    && (forall r :: r in table <==> r in records && Canonical(env, profile, records[r]))
    && (forall r :: r in table && r in records ==>
          table[r].product == records[r].product && Some(table[r].embedding) == records[r].embedding)
  }

  /**
   * Reconciling a sound table makes it exact, except for the product under which a surviving row was
   * filed: that is the one column reconciliation never repairs.
   */
  lemma ReconcileExactIff(env: Env, profile: Profile, records: map<nat, Row>, table: map<nat, VecRow>)
    requires TableSound(records, table)
    ensures Exact(env, profile, records, ReconciledTable(env, profile, records, table)) <==>
            forall r :: r in table && r in records && Canonical(env, profile, records[r]) ==>
              table[r].product == records[r].product
  {
    var after := ReconciledTable(env, profile, records, table);
    if Exact(env, profile, records, after) {
      forall r | r in table && r in records && Canonical(env, profile, records[r])
        ensures table[r].product == records[r].product
      {
        assert r in after && after[r].product == table[r].product;
      }
    }
    if forall r :: r in table && r in records && Canonical(env, profile, records[r]) ==> table[r].product == records[r].product {
      forall r | r in after
        ensures after[r].product == records[r].product && Some(after[r].embedding) == records[r].embedding
      {
        if r in table { assert RowSound(records, table, r); }
      }
    }
  }
}
