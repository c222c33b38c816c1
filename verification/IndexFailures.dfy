/** Runs on which the index is not what its stamps suggest: stranded rows, moved rows and another spelling of a stamp. */
module IndexFailures {
  import opened Prelude
  import opened IndexState
  import opened IndexWriter
  import opened DenseSearch
  import opened IndexAgreement

  const LIVE: Facets := Facets("project", "p", "active")

  function Pending(id: string, product: string): Row { Row(id, product, LIVE, "", EmbedStatus.Pending, None) }

  function Embedded(id: string, product: string, v: Vector): Row { Row(id, product, LIVE, "", Present, Some(v)) }

  /** A vector session on the default profile over these records and vector rows. */
  predicate InSession(env: Env, s: State, records: map<nat, Row>, table: map<nat, VecRow>) {
    && s.conn == Some(Conn(Vec0, DefaultProfile, false)) && CleanupCurrent(s.db.meta)
    && ActiveProfile(env, s.db.meta) == DefaultProfile
    && s.db.records == records && s.db.vec == map[DefaultProfile := table]
  }

  lemma FirstOpen(env: Env)
    requires Sensible(env)
    ensures InSession(env, Next(env, NewIndex(), Open(Vec0, NoFault)), map[], map[])
  {
    StampedReads(env, map[], DefaultProfile, Vec0, StampCurrent);
  }

  lemma AddedRow(env: Env, s: State, records: map<nat, Row>, table: map<nat, VecRow>, r: nat, id: string, product: string, v: Vector)
    requires InSession(env, s, records, table) && |v| == env.dim(DefaultProfile)
    requires r !in records && r !in table && forall x :: x in records ==> records[x].bundleId != id
    ensures
      var t := Next(env, s, Mutate(ProjectBundle(r, id, product, LIVE, ""), false));
      InSession(env, Next(env, t, Mutate(StoreEmbedding(r, v), false)),
                records[r := Embedded(id, product, v)], table[r := VecRow(product, LIVE, v)])
  {
    var t := Next(env, s, Mutate(ProjectBundle(r, id, product, LIVE, ""), false));
    assert InSession(env, t, records[r := Pending(id, product)], table);
  }

  /** Two records of one product with their embeddings, and then the first is rendered anew. */
  function StrandingRun(product: string, near: Vector, far: Vector): seq<Event> {
    [Open(Vec0, NoFault),
     Mutate(ProjectBundle(0, "a", product, LIVE, ""), false), Mutate(StoreEmbedding(0, near), false),
     Mutate(ProjectBundle(1, "b", product, LIVE, ""), false), Mutate(StoreEmbedding(1, far), false),
     Mutate(RefreshRendering(0), false)]
  }

  lemma StrandingEnd(env: Env, product: string, near: Vector, far: Vector)
    requires Sensible(env) && |near| == |far| == env.dim(DefaultProfile)
    ensures InSession(
      env, RunSteps(Stepper(env), NewIndex(), StrandingRun(product, near, far)),
      map[0 := Pending("a", product), 1 := Embedded("b", product, far)],
      map[0 := VecRow(product, LIVE, near), 1 := VecRow(product, LIVE, far)])
  {
    hide InSession;
    var run, step := StrandingRun(product, near, far), Stepper(env);
    var s0 := Next(env, NewIndex(), run[0]);
    var s2 := Next(env, Next(env, s0, run[1]), run[2]);
    var s4 := Next(env, Next(env, s2, run[3]), run[4]);
    SixSteps(step, NewIndex(), run);
    FirstOpen(env);
    AddedRow(env, s0, map[], map[], 0, "a", product, near);
    assert "a" != "b";
    AddedRow(env, s2, map[0 := Embedded("a", product, near)], map[0 := VecRow(product, LIVE, near)], 1, "b", product, far);
    RefreshedRow(env, s4, product, near, far);
  }

  lemma SixSteps<S, A>(step: (S, A) -> S, s: S, run: seq<A>)
    requires |run| == 6
    ensures RunSteps(step, s, run) == step(step(step(step(step(step(s, run[0]), run[1]), run[2]), run[3]), run[4]), run[5])
  {
    TwoSteps(step, s, run);
    FourSteps(step, step(step(s, run[0]), run[1]), run[2..]);
  }

  lemma RefreshedRow(env: Env, s: State, product: string, near: Vector, far: Vector)
    requires InSession(
      env, s,
      map[0 := Embedded("a", product, near)][1 := Embedded("b", product, far)],
      map[0 := VecRow(product, LIVE, near)][1 := VecRow(product, LIVE, far)])
    ensures InSession(
      env, Next(env, s, Mutate(RefreshRendering(0), false)),
      map[0 := Pending("a", product), 1 := Embedded("b", product, far)],
      map[0 := VecRow(product, LIVE, near), 1 := VecRow(product, LIVE, far)])
  {
    LiveIsNotDead();
    var row := s.db.records[0];
    assert row == Embedded("a", product, near);
    assert s.db.vec[DefaultProfile] == map[0 := VecRow(product, LIVE, near), 1 := VecRow(product, LIVE, far)];
    assert s.db.records[0 := Pending("a", product)] == map[0 := Pending("a", product), 1 := Embedded("b", product, far)];
  }

  lemma LiveIsNotDead()
    ensures !DeadStatus(LIVE.status)
  {
    assert "active"[0] == 'a' && "superseded"[0] == 's' && "deprecated"[0] == 'd';
  }

  /**
   * A run from nothing that ends with a current marker, a vector row its record no longer backs, and a
   * vector search for one hit that finds nothing although scoring every record does.
   */
  lemma StrandedRun(env: Env, product: string, near: Vector, far: Vector, query: Vector, d: Metric)
    requires Sensible(env) && |near| == |far| == |query| == env.dim(DefaultProfile)
    requires d(query, near) < d(query, far)
    ensures
      var s := RunSteps(Stepper(env), NewIndex(), StrandingRun(product, near, far));
      && CleanupCurrent(s.db.meta) && DefaultProfile in s.db.vec
      && !Strict(s.db.records, s.db.vec[DefaultProfile])
      && DenseVec0(env, DefaultProfile, s.db.records, s.db.vec[DefaultProfile], [product], query, d, 1) == []
      && DenseBrute(s.db.records, Some(product), query, d, 1) != []
  {
    hide DenseVec0, DenseBrute;
    StrandingEnd(env, product, near, far);
    var s := RunSteps(Stepper(env), NewIndex(), StrandingRun(product, near, far));
    var table := s.db.vec[DefaultProfile];
    assert 0 in table && s.db.records[0].embedding == None;
    StrandedNearestLost(env, DefaultProfile, s.db.records, table, query, d, 0, 1);
  }

  /** One record with its embedding, moved to another product, and reconciled. */
  function MovingRun(from: string, to: string, v: Vector): seq<Event> {
    [Open(Vec0, NoFault),
     Mutate(ProjectBundle(0, "a", from, LIVE, ""), false), Mutate(StoreEmbedding(0, v), false),
     Mutate(ProjectBundle(0, "a", to, LIVE, ""), false)]
  }

  lemma MovedRow(env: Env, s: State, from: string, to: string, v: Vector)
    requires InSession(env, s, map[0 := Embedded("a", from, v)], map[0 := VecRow(from, LIVE, v)])
    ensures InSession(env, Next(env, s, Mutate(ProjectBundle(0, "a", to, LIVE, ""), false)),
                      map[0 := Embedded("a", to, v)], map[0 := VecRow(from, LIVE, v)])
  {
    LiveIsNotDead();
    var m := ProjectBundle(0, "a", to, LIVE, "");
    var moved := VecRow(from, LIVE, v);
    assert Upserted(s.db.records, m) == map[0 := Embedded("a", to, v)];
    assert s.db.vec[DefaultProfile][0 := moved] == map[0 := moved];
    assert RefreshedVec(s.db.vec, Vec0, DefaultProfile, 0, LIVE) == map[DefaultProfile := map[0 := moved]];
  }

  lemma StillMisfiled(env: Env, s: State, from: string, to: string, v: Vector)
    requires InSession(env, s, map[0 := Embedded("a", to, v)], map[0 := VecRow(from, LIVE, v)])
    requires |v| == env.dim(DefaultProfile)
    ensures InSession(env, Next(env, s, Mutate(ReconcileVecRows, false)),
                      map[0 := Embedded("a", to, v)], map[0 := VecRow(from, LIVE, v)])
  {
    var after := ReconciledTable(env, DefaultProfile, s.db.records, s.db.vec[DefaultProfile]);
    assert after == map[0 := VecRow(from, LIVE, v)];
  }

  lemma NoRowsNoHits(env: Env, records: map<nat, Row>, table: map<nat, VecRow>, product: string, query: Vector, d: Metric)
    requires forall r :: r in table ==> table[r].product != product
    ensures DenseVec0(env, DefaultProfile, records, table, [product], query, d, 1) == []
  {
    assert PartitionRows(table, product) == {};
    assert PartitionCandidates(table, product, query, d) == [];
    assert Knn(table, product, query, d, 1) == [];
    assert [product][1..] == [];
    assert Merged(table, [product], query, d, 1) == [];
  }

  /**
   * A run from nothing that ends with a current marker and a row filed under a product its record has left;
   * reconciling leaves it there, and a vector search of the new product never finds the record.
   */
  lemma MovedRun(env: Env, from: string, to: string, v: Vector, query: Vector, d: Metric)
    requires Sensible(env) && from != to && |v| == |query| == env.dim(DefaultProfile)
    ensures
      var s := RunSteps(Stepper(env), NewIndex(), MovingRun(from, to, v));
      var t := Next(env, s, Mutate(ReconcileVecRows, false));
      forall u :: u == s || u == t ==>
        && CleanupCurrent(u.db.meta) && DefaultProfile in u.db.vec
        && !ProductsAgree(u.db.records, u.db.vec[DefaultProfile])
        && DenseVec0(env, DefaultProfile, u.db.records, u.db.vec[DefaultProfile], [to], query, d, 1) == []
        && DenseBrute(u.db.records, Some(to), query, d, 1) != []
  {
    hide DenseVec0, DenseBrute;
    var run, step := MovingRun(from, to, v), Stepper(env);
    var s0 := Next(env, NewIndex(), run[0]);
    var s2 := Next(env, Next(env, s0, run[1]), run[2]);
    FourSteps(step, NewIndex(), run);
    FirstOpen(env);
    AddedRow(env, s0, map[], map[], 0, "a", from, v);
    MovedRow(env, s2, from, to, v);
    var s := Next(env, s2, run[3]);
    StillMisfiled(env, s, from, to, v);
    var records, table := map[0 := Embedded("a", to, v)], map[0 := VecRow(from, LIVE, v)];
    assert 0 in table && !ProductsAgree(records, table);
    NoRowsNoHits(env, records, table, to, query, d);
    BruteFinds(env, DefaultProfile, records, to, query, d, 0);
  }

  /**
   * Under another spelling of the current version, the inspection reports a stale rendering epoch that no
   * writer sees, until a writer opens and rewrites the stamp.
   */
  lemma MisreadSpelling(env: Env, spelling: string, cap: Capability)
    requires Sensible(env) && spelling != RENDERING_TEXT && env.number(spelling) == Some(RENDERING_VERSION as real)
    ensures
      var first := Next(env, NewIndex(), Open(Vec0, NoFault)).db;
      var db := first.(meta := first.meta[RENDERING_STAMP := spelling]);
      var next := OpenWriter(env, db, cap, NoFault);
      && Maintenance(db).Ok? && Maintenance(db).value.renderingEpochStale
      && next.Opened? && !next.stale && Maintenance(next.db).Ok? && !Maintenance(next.db).value.renderingEpochStale
  {
    DistinctStamps();
    StampedReads(env, map[], DefaultProfile, Vec0, StampCurrent);
    var first := Next(env, NewIndex(), Open(Vec0, NoFault)).db;
    var db := first.(meta := first.meta[RENDERING_STAMP := spelling]);
    StampedReads(env, db.meta, ActiveProfile(env, db.meta), cap, StampCurrent);
    assert Records in db.tables;
  }

  /** For instance `2.0`, which `Number` reads as 2. */
  lemma DecimalSpelling(env: Env, cap: Capability)
    requires Sensible(env) && env.number("2.0") == Some(2.0)
    ensures
      var first := Next(env, NewIndex(), Open(Vec0, NoFault)).db;
      var db := first.(meta := first.meta[RENDERING_STAMP := "2.0"]);
      Maintenance(db).Ok? && Maintenance(db).value.renderingEpochStale && !OpenWriter(env, db, cap, NoFault).stale
  {
    assert |"2.0"| == 3 && |RENDERING_TEXT| == 1;
    MisreadSpelling(env, "2.0", cap);
  }
}
