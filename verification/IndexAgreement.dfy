/** From any run of writers to agreeing searches: what a reconciled vector table is worth to a reader. */
module IndexAgreement {
  import opened Prelude
  import opened StableSort
  import opened IndexState
  import opened DenseSearch

  predicate ProfileKnown(env: Env, db: Db) { Stamp(db.meta, PROFILE_STAMP) == Some(env.key(ActiveProfile(env, db.meta))) }

  /** Under a known profile stamp every stored embedding is present and fits that profile. */
  predicate Fitting(env: Env, db: Db) { ProfileKnown(env, db) ==> Uniform(env, ActiveProfile(env, db.meta), db.records) }

  /** Records and active vector rows are filed under the home product of their bundle. */
  predicate AtHome(home: string -> string, env: Env, db: Db) {
    && (forall r :: r in db.records ==> db.records[r].product == home(db.records[r].bundleId))
    && (CleanupCurrent(db.meta) && ActiveProfile(env, db.meta) in db.vec ==>
          ProductsAgree(db.records, db.vec[ActiveProfile(env, db.meta)]))
  }

  predicate Kept(env: Env, home: string -> string, s: State) {
    && Inv(env, s) && Fitting(env, s.db) && AtHome(home, env, s.db)
    && (s.conn.Some? ==> ProfileKnown(env, s.db))
  }

  /** Bundles are only ever projected under their home product. */
  predicate Homely(home: string -> string, e: Event) {
    e.Mutate? && e.mutation.ProjectBundle? ==> e.mutation.product == home(e.mutation.bundleId)
  }

  lemma SettledFitting(env: Env, db: Db, cap: Capability, stale: bool)
    requires Sensible(env) && Fitting(env, db)
    ensures
      var after := Settled(env, db, cap, ActiveProfile(env, db.meta), stale);
      ProfileKnown(env, after) && Fitting(env, after)
  {
    var profile := ActiveProfile(env, db.meta);
    StampedReads(env, db.meta, profile, cap, if stale then Preserve else StampCurrent);
    var after := Settled(env, db, cap, profile, stale);
    assert ActiveProfile(env, after.meta) == profile;
    if !(TransitionRequired(env, db) || stale) { assert after.records == db.records && ProfileKnown(env, db); }
  }

  lemma SettledAtHome(env: Env, home: string -> string, db: Db, cap: Capability, stale: bool)
    requires Sensible(env) && Sound(env, db) && AtHome(home, env, db)
    requires cap.Vec0? ==> ActiveProfile(env, db.meta) in db.vec
    ensures AtHome(home, env, Settled(env, db, cap, ActiveProfile(env, db.meta), stale))
  {
    var profile := ActiveProfile(env, db.meta);
    StampedReads(env, db.meta, profile, cap, if stale then Preserve else StampCurrent);
    var after := Settled(env, db, cap, profile, stale);
    assert ActiveProfile(env, after.meta) == profile;
    assert forall r :: r in after.records ==>
      r in db.records && after.records[r].product == db.records[r].product && after.records[r].bundleId == db.records[r].bundleId;
  }

  lemma OpenKept(env: Env, home: string -> string, db: Db, cap: Capability, fault: Fault)
    requires Sensible(env) && Sound(env, db) && Fitting(env, db) && AtHome(home, env, db)
    ensures
      var o := OpenWriter(env, db, cap, fault);
      && Fitting(env, o.db) && AtHome(home, env, o.db) && (o.Opened? ==> ProfileKnown(env, o.db))
  {
    hide Settled;
    var profile := ActiveProfile(env, db.meta);
    var ready := Bootstrapped(db, cap, profile);
    assert Fitting(env, ready) && AtHome(home, env, ready) && Sound(env, ready);
    if fault.NoFault? {
      if ResetRequired(env, db) {
        StampedReads(env, map[], profile, cap, StampCurrent);
      } else {
        SettledFitting(env, ready, cap, RenderingStale(env, db));
        SettledAtHome(env, home, ready, cap, RenderingStale(env, db));
      }
    }
  }

  lemma FlipKept(env: Env, home: string -> string, db: Db, cap: Capability, m: Mutation)
    requires Sensible(env) && m.FlipProfile? && Sound(env, db) && Fitting(env, db) && AtHome(home, env, db)
    requires ProfileKnown(env, db) && (cap.Vec0? <==> CleanupCurrent(db.meta))
    ensures Fitting(env, Flipped(env, db, cap, m)) && AtHome(home, env, Flipped(env, db, cap, m))
  {
    DistinctStamps();
    var prepared := db.(vec := if cap.Vec0? then db.vec[m.target := map[]] else db.vec);
    if m.target != ActiveProfile(env, db.meta) && FlipComplete(env, prepared, m) {
      var after := Flipped(env, db, cap, m);
      assert ActiveProfile(env, after.meta) == m.target;
      forall r | r in after.records && after.records[r].embedding.Some?
        ensures Canonical(env, m.target, after.records[r])
      {
        assert !MemberMissing(env, prepared, m, r);
      }
    }
  }

  lemma MutationKept(env: Env, home: string -> string, db: Db, cap: Capability, m: Mutation)
    requires Sensible(env) && Sound(env, db) && Fitting(env, db) && AtHome(home, env, db) && ProfileKnown(env, db)
    requires cap.Vec0? <==> CleanupCurrent(db.meta)
    requires m.ProjectBundle? ==> m.product == home(m.bundleId)
    ensures
      var after := Mutated(env, db, cap, ActiveProfile(env, db.meta), m);
      Fitting(env, after) && AtHome(home, env, after)
  {
    if m.FlipProfile? {
      FlipKept(env, home, db, cap, m);
    } else {
      FittingKept(env, db, cap, m);
      HomeKept(env, home, db, cap, m);
    }
  }

  lemma FittingKept(env: Env, db: Db, cap: Capability, m: Mutation)
    requires Sensible(env) && Fitting(env, db) && ProfileKnown(env, db) && !m.FlipProfile?
    ensures Fitting(env, Mutated(env, db, cap, ActiveProfile(env, db.meta), m))
  {
    hide VecDeleteFails, WithoutRow, RefreshedVec, ReconciledTable, WithVecRow;
    var profile := ActiveProfile(env, db.meta);
    var after := Mutated(env, db, cap, profile, m);
    assert after.meta == db.meta;
    forall r | r in after.records && after.records[r].embedding.Some? ensures Canonical(env, profile, after.records[r]) {
      assert after.records[r] == db.records[r] || m.ProjectBundle? || m.StoreEmbedding?;
    }
  }

  lemma HomeKept(env: Env, home: string -> string, db: Db, cap: Capability, m: Mutation)
    requires Sensible(env) && Sound(env, db) && AtHome(home, env, db) && !m.FlipProfile?
    requires cap.Vec0? <==> CleanupCurrent(db.meta)
    requires m.ProjectBundle? ==> m.product == home(m.bundleId)
    ensures AtHome(home, env, Mutated(env, db, cap, ActiveProfile(env, db.meta), m))
  {
    hide Drifts, Canonical, VecDeleteFails;
    if cap.Vec0? { ProductsKeptIff(env, db, m); }
  }

  lemma StepKept(env: Env, home: string -> string, s: State, e: Event)
    requires Sensible(env) && Kept(env, home, s) && Homely(home, e)
    ensures Kept(env, home, Next(env, s, e))
  {
    hide OpenWriter, Mutated;
    StepSound(env, s, e);
    match e
    case Open(cap, fault) => OpenKept(env, home, s.db, cap, fault);
    case Mutate(m, lost) =>
      if s.conn.Some? && !lost {
        MutationKept(env, home, s.db, s.conn.value.cap, m);
        if !m.FlipProfile? { MutatedSound(env, s.db, s.conn.value.cap, s.conn.value.profile, m); }
      }
    case CompleteRenderingEpoch => DistinctStamps();
    case Close =>
  }

  lemma RunKept(env: Env, home: string -> string, events: seq<Event>)
    requires Sensible(env) && forall e :: e in events ==> Homely(home, e)
    ensures Kept(env, home, RunSteps(Stepper(env), NewIndex(), events))
  {
    hide Next, Kept;
    var inv := (s: State) => Kept(env, home, s);
    var allowed := (e: Event) => Homely(home, e);
    assert inv(NewIndex()) by { NewIndexKept(env, home); }
    forall s, e | inv(s) && allowed(e) ensures inv(Stepper(env)(s, e)) { StepKept(env, home, s, e); }
    RunInvariant(Stepper(env), NewIndex(), events, inv, allowed);
  }

  /** A file that has just been created. */
  function NewIndex(): State { State(Db({}, map[], map[], map[]), None) }

  lemma NewIndexKept(env: Env, home: string -> string)
    ensures Kept(env, home, NewIndex())
  {
  }

  /**
   * Start from nothing and let writers come and go, fail, migrate profiles and rebuild in any order. If
   * bundles stay in their product, then whenever a vector writer has just reconciled, searching its vector
   * table gives exactly the answer of scoring every record.
   */
  lemma ReconciledSearchesAgree(
    env: Env, home: string -> string, events: seq<Event>,
    scope: Option<string>, products: seq<string>, query: Vector, d: Metric, k: nat)
    requires Sensible(env) && forall e :: e in events ==> Homely(home, e)
    requires
      var s := RunSteps(Stepper(env), NewIndex(), events);
      && s.conn.Some? && s.conn.value.cap.Vec0?
      && |query| == env.dim(s.conn.value.profile)
      && ProductList(env, s.conn.value.profile, s.db.records, scope, products)
    ensures
      var s := RunSteps(Stepper(env), NewIndex(), events);
      var p := s.conn.value.profile;
      var after := Next(env, s, Mutate(ReconcileVecRows, false)).db;
      && p in after.vec
      && DenseVec0(env, p, after.records, after.vec[p], products, query, d, k)
         == DenseBrute(after.records, scope, query, d, k)
  {
    hide DenseVec0, DenseBrute, ProductList;
    RunKept(env, home, events);
    var s := RunSteps(Stepper(env), NewIndex(), events);
    ReconciledExact(env, home, s);
    var p := s.conn.value.profile;
    var after := Next(env, s, Mutate(ReconcileVecRows, false)).db;
    DenseSearchesAgree(env, p, after.records, after.vec[p], scope, products, query, d, k);
  }

  lemma ReconciledExact(env: Env, home: string -> string, s: State)
    requires Kept(env, home, s) && s.conn.Some? && s.conn.value.cap.Vec0?
    ensures
      var p := s.conn.value.profile;
      var after := Next(env, s, Mutate(ReconcileVecRows, false)).db;
      && after.records == s.db.records && p in after.vec
      && Exact(env, p, after.records, after.vec[p]) && Uniform(env, p, after.records)
  {
    var p := s.conn.value.profile;
    ReconcileExactIff(env, p, s.db.records, s.db.vec[p]);
  }

  /**
   * A stranded row is what the marker alone does not exclude: when it is the nearest of its product, a
   * vector search for one hit returns nothing, although scoring every record finds one.
   */
  lemma StrandedNearestLost(
    env: Env, profile: Profile, records: map<nat, Row>, table: map<nat, VecRow>,
    query: Vector, d: Metric, r: nat, other: nat)
    requires r in table && !(r in records && Canonical(env, profile, records[r]))
    requires forall x :: x in table && x != r && table[x].product == table[r].product ==>
      d(query, table[r].embedding) < d(query, table[x].embedding)
    requires other in records && Canonical(env, profile, records[other]) && records[other].product == table[r].product
    requires |query| == env.dim(profile)
    ensures DenseVec0(env, profile, records, table, [table[r].product], query, d, 1) == []
    ensures DenseBrute(records, Some(table[r].product), query, d, 1) != []
  {
    hide Canonical, Knn, DenseBrute, Nearest, Merged;
    var product := table[r].product;
    var x := VecCandidate(table, product, query, d, r);
    NearestIs(table, product, query, d, r);
    OneProduct(table, product, query, d, x);
    NearestOne([x], x);
    assert !Confirmed(env, profile, records, x) && [x][1..] == [];
    assert ConfirmedHits(env, profile, records, [x][1..]) == [];
    assert ConfirmedHits(env, profile, records, [x]) == [];
    BruteFinds(env, profile, records, product, query, d, other);
  }

  lemma OneProduct(table: map<nat, VecRow>, product: string, query: Vector, d: Metric, x: Candidate)
    requires Knn(table, product, query, d, 1) == [x]
    ensures Merged(table, [product], query, d, 1) == [x]
  {
    assert [product][1..] == [] && [x] + [] == [x];
  }

  lemma NearestOne(s: seq<Candidate>, x: Candidate)
    requires x in s && forall y :: y in s ==> y == x || x.distance < y.distance
    ensures Nearest(s, 1) == [x]
  {
    assert TotalPreorder(NEARER);
    SortSorted(s, NEARER);
    assert x in Sort(s, NEARER);
    HeadIsLeast(Sort(s, NEARER), x, NEARER);
    assert Sort(s, NEARER)[0] in s;
  }

  lemma NearestIs(table: map<nat, VecRow>, product: string, query: Vector, d: Metric, r: nat)
    requires r in table && table[r].product == product
    requires forall x :: x in table && x != r && table[x].product == product ==>
      d(query, table[r].embedding) < d(query, table[x].embedding)
    ensures Knn(table, product, query, d, 1) == [VecCandidate(table, product, query, d, r)]
  {
    hide Nearest;
    var rows := Ascending(PartitionRows(table, product));
    var p := PartitionCandidates(table, product, query, d);
    var x := VecCandidate(table, product, query, d, r);
    MapIsScored(table, product, query, d, rows, x);
    forall y | y in p ensures y == x || x.distance < y.distance {
      MapIsScored(table, product, query, d, rows, y);
    }
    NearestOne(p, x);
  }

  lemma BruteFinds(env: Env, profile: Profile, records: map<nat, Row>, product: string, query: Vector, d: Metric, other: nat)
    requires other in records && Canonical(env, profile, records[other]) && records[other].product == product
    requires |query| == env.dim(profile)
    ensures DenseBrute(records, Some(product), query, d, 1) != []
  {
    var all := AllScored(records, Some(product), query, d);
    AllScoredMembers(records, Some(product), query, d);
    var c := Candidate(other, product, d(query, records[other].embedding.value));
    assert CandidateOf(records, Some(product), query, d, c);
    var chosen := Nearest(all, 1);
    assert chosen[0] in Sort(all, NEARER);
    assert CandidateOf(records, Some(product), query, d, chosen[0]);
  }
}
