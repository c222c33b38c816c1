/**
 * Dense search: the nearest records by embedding, once through the vector table product by product and
 * once by scoring every record, and when the two give the same answer.
 */
module DenseSearch {
  import opened Prelude
  import opened StableSort
  import opened IndexState

  /** `cosineDistance` of two vectors of the same length. */
  type Metric = (Vector, Vector) -> real

  datatype Candidate = Candidate(rowid: nat, product: string, distance: real)

  datatype DenseHit = DenseHit(rowid: nat, record: Row, distance: real)

  /** A JavaScript number given as a limit. */
  datatype Limit = Absent | Infinite | NotFinite | Finite(value: real)

  const MAX_SQL_LIMIT: nat := 2_147_483_647

  function QueryLimit(k: Limit): (r: nat)
    ensures r <= MAX_SQL_LIMIT
    ensures k.Finite? && 0.0 <= k.value <= MAX_SQL_LIMIT as real ==> r as real <= k.value < r as real + 1.0
    ensures k.Absent? || k.Infinite? || (k.Finite? && k.value >= MAX_SQL_LIMIT as real) <==> r == MAX_SQL_LIMIT
    ensures k.NotFinite? || (k.Finite? && k.value < 1.0) <==> r == 0
  {
    match k
    case Absent => MAX_SQL_LIMIT
    case Infinite => MAX_SQL_LIMIT
    case NotFinite => 0
    case Finite(v) => Min(MAX_SQL_LIMIT, Max(0, v.Floor))
  }

  /** Nearer first, then the smaller row id. */
  predicate Nearer(a: Candidate, b: Candidate) {
    a.distance < b.distance || (a.distance == b.distance && a.rowid <= b.rowid)
  }

  const NEARER: (Candidate, Candidate) -> bool := (a: Candidate, b: Candidate) => Nearer(a, b)

  // ----- rows in ascending order -----

  function Least(s: set<nat>): (m: nat)
    requires s != {}
    ensures m in s && forall x :: x in s ==> m <= x
  {
    LeastExists(s);
    var m :| m in s && forall x :: x in s ==> m <= x;
    m
  }

  lemma {:induction false} LeastExists(s: set<nat>)
    requires s != {}
    ensures exists m :: m in s && forall x :: x in s ==> m <= x
  {
    var m :| m in s;
    if s != {m} {
      LeastExists(s - {m});
      var l :| l in s - {m} && forall x :: x in s - {m} ==> l <= x;
      var least := if l <= m then l else m;
      assert forall x :: x in s ==> x == m || x in s - {m};
      assert least in s && forall x :: x in s ==> least <= x;
    }
  }

  function Ascending(s: set<nat>): (r: seq<nat>)
    ensures forall x :: x in r <==> x in s
    ensures forall i, j :: 0 <= i < j < |r| ==> r[i] < r[j]
    decreases |s|
  {
    if s == {} then [] else
      var m := Least(s);
      var rest := Ascending(s - {m});
      assert forall i :: 0 <= i < |rest| ==> rest[i] in rest;
      [m] + rest
  }

  // ----- the two searches -----

  predicate InScope(product: string, scope: Option<string>) { scope.None? || scope.value == product }

  predicate Scorable(row: Row, scope: Option<string>, query: Vector) {
    row.embedding.Some? && InScope(row.product, scope) && |row.embedding.value| == |query|
  }

  /** The candidate of one row, when the row is in scope and its embedding can be compared with the query. */
  function ScoreOf(records: map<nat, Row>, r: nat, scope: Option<string>, query: Vector, d: Metric): seq<Candidate> {
    if r in records && Scorable(records[r], scope, query) then
      [Candidate(r, records[r].product, d(query, records[r].embedding.value))]
    else []
  }

  function Scored(records: map<nat, Row>, rowids: seq<nat>, scope: Option<string>, query: Vector, d: Metric): seq<Candidate> {
    if rowids == [] then []
    else ScoreOf(records, rowids[0], scope, query, d) + Scored(records, rowids[1..], scope, query, d)
  }

  lemma ScoredStep(
    records: map<nat, Row>, rowids: seq<nat>, i: nat, scope: Option<string>, query: Vector, d: Metric, before: seq<Candidate>)
    requires i < |rowids|
    ensures before + Scored(records, rowids[i..], scope, query, d) ==
            (before + ScoreOf(records, rowids[i], scope, query, d)) + Scored(records, rowids[i + 1..], scope, query, d)
  {
    assert rowids[i..][1..] == rowids[i + 1..];
  }

  lemma {:induction false} ScoredMembers(
    records: map<nat, Row>, rowids: seq<nat>, scope: Option<string>, query: Vector, d: Metric)
    requires forall i, j :: 0 <= i < j < |rowids| ==> rowids[i] < rowids[j]
    ensures
      var s := Scored(records, rowids, scope, query, d);
      && (forall c :: c in s <==> c.rowid in rowids && c in ScoreOf(records, c.rowid, scope, query, d))
      && (forall i, j :: 0 <= i < j < |s| ==> s[i].rowid < s[j].rowid)
  {
    if rowids != [] {
      ScoredMembers(records, rowids[1..], scope, query, d);
      var head, rest := ScoreOf(records, rowids[0], scope, query, d), Scored(records, rowids[1..], scope, query, d);
      assert forall x :: x in rowids <==> x == rowids[0] || x in rowids[1..];
      assert forall i :: 0 <= i < |rest| ==> rest[i] in rest;
      forall c | c in head ensures c.rowid == rowids[0] {}
    }
  }

  /** The candidate a record in scope stands for. */
  predicate CandidateOf(records: map<nat, Row>, scope: Option<string>, query: Vector, d: Metric, c: Candidate) {
    && c.rowid in records && Scorable(records[c.rowid], scope, query)
    && c == Candidate(c.rowid, records[c.rowid].product, d(query, records[c.rowid].embedding.value))
  }

  lemma AllScoredMembers(records: map<nat, Row>, scope: Option<string>, query: Vector, d: Metric)
    ensures
      var s := AllScored(records, scope, query, d);
      && (forall c :: c in s <==> CandidateOf(records, scope, query, d, c))
      && (forall i, j :: 0 <= i < j < |s| ==> s[i].rowid != s[j].rowid)
  {
    hide ScoreOf, CandidateOf;
    ScoredMembers(records, Ascending(records.Keys), scope, query, d);
    forall c ensures c in AllScored(records, scope, query, d) <==> CandidateOf(records, scope, query, d, c) {
      ScoreOfIff(records, scope, query, d, c);
    }
  }

  lemma ScoreOfIff(records: map<nat, Row>, scope: Option<string>, query: Vector, d: Metric, c: Candidate)
    ensures c in ScoreOf(records, c.rowid, scope, query, d) <==> CandidateOf(records, scope, query, d, c)
    ensures CandidateOf(records, scope, query, d, c) ==> c.rowid in records
  {
  }

  function AllScored(records: map<nat, Row>, scope: Option<string>, query: Vector, d: Metric): seq<Candidate> {
    Scored(records, Ascending(records.Keys), scope, query, d)
  }

  function Nearest(candidates: seq<Candidate>, k: nat): seq<Candidate> { Take(Sort(candidates, NEARER), k) }

  function PartitionRows(table: map<nat, VecRow>, product: string): set<nat> {
    set r | r in table && table[r].product == product
  }

  function PartitionCandidates(table: map<nat, VecRow>, product: string, query: Vector, d: Metric): seq<Candidate> {
    Map((r: nat) => VecCandidate(table, product, query, d, r), Ascending(PartitionRows(table, product)))
  }

  /** `... MATCH ? AND product = ? AND k = ?`: the k nearest rows of the partition. */
  function Knn(table: map<nat, VecRow>, product: string, query: Vector, d: Metric, k: nat): seq<Candidate> {
    Nearest(PartitionCandidates(table, product, query, d), k)
  }

  function VecCandidate(table: map<nat, VecRow>, product: string, query: Vector, d: Metric, r: nat): Candidate {
    Candidate(r, product, if r in table then d(query, table[r].embedding) else 0.0)
  }

  function Hit(records: map<nat, Row>, c: Candidate): DenseHit
    requires c.rowid in records
  {
    DenseHit(c.rowid, records[c.rowid], c.distance)
  }

  /** The hits of scored candidates, each of which carries its own record. */
  function BruteHits(records: map<nat, Row>, chosen: seq<Candidate>): seq<DenseHit> {
    if chosen == [] then []
    else (if chosen[0].rowid in records then [Hit(records, chosen[0])] else []) + BruteHits(records, chosen[1..])
  }

  function DenseBrute(records: map<nat, Row>, scope: Option<string>, query: Vector, d: Metric, k: nat): seq<DenseHit> {
    BruteHits(records, Nearest(AllScored(records, scope, query, d), k))
  }

  /** `recordByRowidWithActiveEmbedding` finds the candidate's record. */
  predicate Confirmed(env: Env, profile: Profile, records: map<nat, Row>, c: Candidate) {
    c.rowid in records && records[c.rowid].product == c.product && Canonical(env, profile, records[c.rowid])
  }

  function ConfirmedHits(env: Env, profile: Profile, records: map<nat, Row>, chosen: seq<Candidate>): seq<DenseHit> {
    if chosen == [] then []
    else if Confirmed(env, profile, records, chosen[0]) then
      [Hit(records, chosen[0])] + ConfirmedHits(env, profile, records, chosen[1..])
    else ConfirmedHits(env, profile, records, chosen[1..])
  }

  function Merged(table: map<nat, VecRow>, products: seq<string>, query: Vector, d: Metric, k: nat): seq<Candidate> {
    if products == [] then []
    else Knn(table, products[0], query, d, k) + Merged(table, products[1..], query, d, k)
  }

  function DenseVec0(
    env: Env, profile: Profile, records: map<nat, Row>, table: map<nat, VecRow>, products: seq<string>,
    query: Vector, d: Metric, k: nat): seq<DenseHit>
  {
    ConfirmedHits(env, profile, records, Nearest(Merged(table, products, query, d, k), k))
  }

  // ----- as the reader runs them -----

  /** `SELECT DISTINCT product` over the canonical records, or the one product asked for. */
  predicate ProductList(env: Env, profile: Profile, records: map<nat, Row>, scope: Option<string>, products: seq<string>) {
    match scope
    case Some(p) => products == [p]
    case None =>
      && (forall i, j :: 0 <= i < j < |products| ==> products[i] != products[j])
      && (forall r :: r in records && Canonical(env, profile, records[r]) ==> records[r].product in products)
      && (forall p :: p in products ==> exists r :: r in records && Canonical(env, profile, records[r]) && records[r].product == p)
  }

  /** The loop of the brute path: score every row, in row order. */
  method ScoreRows(records: map<nat, Row>, rowids: seq<nat>, query: Vector, scope: Option<string>, d: Metric)
    returns (candidates: seq<Candidate>)
    requires forall r :: r in rowids ==> r in records
    ensures candidates == Scored(records, rowids, scope, query, d)
  {
    candidates := [];
    for i := 0 to |rowids|
      invariant candidates + Scored(records, rowids[i..], scope, query, d) == Scored(records, rowids, scope, query, d)
    {
      ScoredStep(records, rowids, i, scope, query, d, candidates);
      var row := records[rowids[i]];
      if Scorable(row, scope, query) {
        candidates := candidates + [Candidate(rowids[i], row.product, d(query, row.embedding.value))];
      } else {
        assert candidates + [] == candidates;
      }
    }
    assert candidates + [] == candidates;
  }

  class DenseIndex {
    const env: Env
    const d: Metric
    var db: Db

    constructor (env: Env, d: Metric, db: Db)
      ensures this.env == env && this.d == d && this.db == db
    {
      this.env, this.d, this.db := env, d, db;
    }

    /** The vector path; a query of another dimension makes `MATCH` fail. */
    method SearchVec0(query: Vector, scope: Option<string>, limit: Limit, products: seq<string>)
      returns (r: Result<seq<DenseHit>, ()>)
      requires ProductList(env, ActiveProfile(env, db.meta), db.records, scope, products)
      ensures
        var profile := ActiveProfile(env, db.meta);
        var k := QueryLimit(limit);
        if k == 0 || !CleanupCurrent(db.meta) then r == Ok([])
        else if profile !in db.vec || (products != [] && |query| != env.dim(profile)) then r.Err?
        else r == Ok(DenseVec0(env, profile, db.records, db.vec[profile], products, query, d, k))
    {
      hide ProductList, Knn, ConfirmedHits, Nearest;
      var profile := ActiveProfile(env, db.meta);
      var k := QueryLimit(limit);
      if k == 0 { return Ok([]); }
      if !CleanupCurrent(db.meta) { return Ok([]); }
      if profile !in db.vec { return Err(()); }
      var table := db.vec[profile];
      var candidates: seq<Candidate> := [];
      for i := 0 to |products|
        invariant candidates + Merged(table, products[i..], query, d, k) == Merged(table, products, query, d, k)
        invariant i > 0 ==> |query| == env.dim(profile)
      {
        if |query| != env.dim(profile) { return Err(()); }
        assert products[i..][1..] == products[i + 1..];
        candidates := candidates + Knn(table, products[i], query, d, k);
      }
      assert products[|products|..] == [];
      assert candidates + [] == candidates;
      var chosen := Nearest(candidates, k);
      r := Ok(ConfirmedHits(env, profile, db.records, chosen));
    }

    method SearchBrute(query: Vector, scope: Option<string>, limit: Limit) returns (hits: seq<DenseHit>)
      ensures hits == if QueryLimit(limit) == 0 then [] else DenseBrute(db.records, scope, query, d, QueryLimit(limit))
    {
      var k := QueryLimit(limit);
      if k == 0 { return []; }
      var candidates := ScoreRows(db.records, Ascending(db.records.Keys), query, scope, d);
      hits := BruteHits(db.records, Nearest(candidates, k));
    }
  }

  // ----- merging per-product winners -----

  lemma NearerIsOrder(s: seq<Candidate>)
    requires forall i, j :: 0 <= i < j < |s| ==> s[i].rowid != s[j].rowid
    ensures TotalPreorder(NEARER) && Antisymmetric(NEARER, s) && Distinct(s)
  {
  }

  predicate OfProduct(c: Candidate, product: string) { c.product == product }

  function OfProductTest(product: string): Candidate -> bool { (c: Candidate) => OfProduct(c, product) }

  /** A candidate is among the k nearest of its own product. */
  function Kept(sorted: seq<Candidate>, k: nat): Candidate -> bool {
    (c: Candidate) => c in Take(Filter(sorted, OfProductTest(c.product)), k)
  }

  lemma {:induction false} FilterTake<T(!new)>(s: seq<T>, p: T -> bool, i: nat)
    requires i < |s| && p(s[i])
    ensures s[i] in Take(Filter(s, p), i + 1)
    decreases |s|
  {
    if i > 0 {
      FilterTake(s[1..], p, i - 1);
      var rest := Filter(s[1..], p);
      if p(s[0]) {
        var f := [s[0]] + rest;
        assert f[1..] == rest;
        var j :| 0 <= j < |Take(rest, i)| && Take(rest, i)[j] == s[i];
        assert f[j + 1] == s[i];
        assert Take(f, i + 1)[j + 1] == s[i];
      } else {
        var j :| 0 <= j < |Take(rest, i)| && Take(rest, i)[j] == s[i];
        assert Take(rest, i + 1)[j] == s[i];
      }
    } else {
      assert Filter(s, p)[0] == s[0];
      assert Take(Filter(s, p), 1)[0] == s[0];
    }
  }

  lemma TakeGrows<T>(s: seq<T>, i: nat, k: nat, x: T)
    requires i <= k && x in Take(s, i)
    ensures x in Take(s, k)
  {
    var j :| 0 <= j < |Take(s, i)| && Take(s, i)[j] == x;
    assert Take(s, k)[j] == x;
  }

  lemma FilterPrefix<T(!new)>(s: seq<T>, p: T -> bool, n: nat)
    requires n <= |s| && forall i :: 0 <= i < n ==> p(s[i])
    ensures Filter(s, p) == s[..n] + Filter(s[n..], p)
  {
    assert s == s[..n] + s[n..];
    FilterAppend(s[..n], s[n..], p);
    FilterAll(s[..n], p);
  }

  /** Nothing among the k nearest is lost by keeping only k per product. */
  lemma KeptTop(sorted: seq<Candidate>, k: nat)
    ensures Take(Filter(sorted, Kept(sorted, k)), k) == Take(sorted, k)
  {
    var n := if k < |sorted| then k else |sorted|;
    forall i | 0 <= i < n ensures Kept(sorted, k)(sorted[i]) {
      FilterTake(sorted, OfProductTest(sorted[i].product), i);
      TakeGrows(Filter(sorted, OfProductTest(sorted[i].product)), i + 1, k, sorted[i]);
    }
    FilterPrefix(sorted, Kept(sorted, k), n);
    var f := Filter(sorted, Kept(sorted, k));
    assert n == |sorted| ==> sorted[n..] == [] && f == sorted;
    assert n < |sorted| ==> f[..k] == sorted[..k];
  }

  /** The k nearest of each listed product, in turn. */
  function Winners(sorted: seq<Candidate>, products: seq<string>, k: nat): seq<Candidate> {
    if products == [] then []
    else Take(Filter(sorted, OfProductTest(products[0])), k) + Winners(sorted, products[1..], k)
  }

  lemma {:induction false} WinnersMembers(sorted: seq<Candidate>, products: seq<string>, k: nat)
    ensures forall c :: c in Winners(sorted, products, k) <==>
              c.product in products && c in Take(Filter(sorted, OfProductTest(c.product)), k)
  {
    if products != [] {
      WinnersMembers(sorted, products[1..], k);
      var head := Take(Filter(sorted, OfProductTest(products[0])), k);
      assert forall p :: p in products <==> p == products[0] || p in products[1..];
      forall c | c in head ensures c.product == products[0] {
        assert c in Filter(sorted, OfProductTest(products[0]));
      }
    }
  }

  lemma TakeDistinct<T(!new)>(s: seq<T>, k: nat)
    requires Distinct(s)
    ensures Distinct(Take(s, k))
  {
  }

  lemma {:induction false} WinnersDistinct(sorted: seq<Candidate>, products: seq<string>, k: nat)
    requires Distinct(sorted) && Distinct(products)
    ensures Distinct(Winners(sorted, products, k))
  {
    if products != [] {
      WinnersDistinct(sorted, products[1..], k);
      WinnersMembers(sorted, products[1..], k);
      var test := OfProductTest(products[0]);
      FilterDistinct(sorted, test);
      TakeDistinct(Filter(sorted, test), k);
      var head, tail := Take(Filter(sorted, test), k), Winners(sorted, products[1..], k);
      forall x, y | x in head && y in tail ensures x != y {
        assert x in Filter(sorted, test);
      }
      forall i, j | 0 <= i < j < |head + tail| ensures (head + tail)[i] != (head + tail)[j] {
        if i < |head| <= j { assert head[i] in head && tail[j - |head|] in tail; }
      }
    }
  }

  /** The k nearest overall are the k nearest of the per-product winners. */
  lemma TopOfWinners(sorted: seq<Candidate>, products: seq<string>, k: nat)
    requires Sorted(sorted, NEARER) && forall i, j :: 0 <= i < j < |sorted| ==> sorted[i].rowid != sorted[j].rowid
    requires Distinct(products) && forall c :: c in sorted ==> c.product in products
    ensures Nearest(Winners(sorted, products, k), k) == Take(sorted, k)
  {
    NearerIsOrder(sorted);
    var winners := Winners(sorted, products, k);
    var kept := Filter(sorted, Kept(sorted, k));
    WinnersMembers(sorted, products, k);
    WinnersDistinct(sorted, products, k);
    FilterDistinct(sorted, Kept(sorted, k));
    forall c: Candidate | c in Take(Filter(sorted, OfProductTest(c.product)), k) ensures c in sorted {
      assert c in Filter(sorted, OfProductTest(c.product));
    }
    DistinctSameElements(winners, kept);
    FilterSorted(sorted, NEARER, Kept(sorted, k));
    SortSameElements(kept, winners, NEARER);
    SortOfSorted(kept, NEARER);
    KeptTop(sorted, k);
  }

  // ----- the theorem -----

  /** Every stored embedding is marked present and fits the active profile. */
  predicate Uniform(env: Env, profile: Profile, records: map<nat, Row>) {
    forall r :: r in records && records[r].embedding.Some? ==> Canonical(env, profile, records[r])
  }

  lemma {:induction false} MapIsScored(
    table: map<nat, VecRow>, product: string, query: Vector, d: Metric, rowids: seq<nat>, x: Candidate)
    ensures x in Map((r: nat) => VecCandidate(table, product, query, d, r), rowids) <==>
            x.rowid in rowids && x == VecCandidate(table, product, query, d, x.rowid)
  {
    var f := (r: nat) => VecCandidate(table, product, query, d, r);
    var m := Map(f, rowids);
    if x in m {
      var i :| 0 <= i < |m| && m[i] == x;
      assert m[i] == f(rowids[i]);
    }
    if x.rowid in rowids && x == f(x.rowid) {
      var i :| 0 <= i < |rowids| && rowids[i] == x.rowid;
      assert m[i] == x;
    }
  }

  lemma PartitionMembers(
    env: Env, profile: Profile, records: map<nat, Row>, table: map<nat, VecRow>, scope: Option<string>,
    product: string, query: Vector, d: Metric, x: Candidate)
    requires Exact(env, profile, records, table) && Uniform(env, profile, records)
    requires |query| == env.dim(profile) && InScope(product, scope)
    ensures x in PartitionCandidates(table, product, query, d)
            <==> x in Filter(AllScored(records, scope, query, d), OfProductTest(product))
  {
    MapIsScored(table, product, query, d, Ascending(PartitionRows(table, product)), x);
    AllScoredMembers(records, scope, query, d);
    if x.rowid in table {
      assert table[x.rowid].product == records[x.rowid].product;
      assert Some(table[x.rowid].embedding) == records[x.rowid].embedding;
    }
  }

  lemma PartitionDistinct(table: map<nat, VecRow>, product: string, query: Vector, d: Metric)
    ensures
      var s := PartitionCandidates(table, product, query, d);
      forall i, j :: 0 <= i < j < |s| ==> s[i].rowid != s[j].rowid
  {
  }

  /** One partition of an exact table scores the records of that product. */
  lemma PartitionScored(
    env: Env, profile: Profile, records: map<nat, Row>, table: map<nat, VecRow>, scope: Option<string>,
    product: string, query: Vector, d: Metric, k: nat)
    requires Exact(env, profile, records, table) && Uniform(env, profile, records)
    requires |query| == env.dim(profile) && InScope(product, scope)
    ensures Knn(table, product, query, d, k) ==
            Take(Filter(Sort(AllScored(records, scope, query, d), NEARER), OfProductTest(product)), k)
  {
    hide Exact, Uniform, Canonical;
    var all := AllScored(records, scope, query, d);
    AllScoredMembers(records, scope, query, d);
    var mine := PartitionCandidates(table, product, query, d);
    var theirs := Filter(all, OfProductTest(product));
    NearerIsOrder(all);
    FilterSort(all, NEARER, OfProductTest(product));
    FilterDistinct(all, OfProductTest(product));
    PartitionDistinct(table, product, query, d);
    NearerIsOrder(mine);
    forall x ensures x in mine <==> x in theirs {
      PartitionMembers(env, profile, records, table, scope, product, query, d, x);
    }
    DistinctSameElements(mine, theirs);
    SortSameElements(mine, theirs, NEARER);
  }

  lemma {:induction false} MergedWinners(
    env: Env, profile: Profile, records: map<nat, Row>, table: map<nat, VecRow>, scope: Option<string>,
    products: seq<string>, query: Vector, d: Metric, k: nat)
    requires Exact(env, profile, records, table) && Uniform(env, profile, records)
    requires |query| == env.dim(profile) && forall p :: p in products ==> InScope(p, scope)
    ensures Merged(table, products, query, d, k) ==
            Winners(Sort(AllScored(records, scope, query, d), NEARER), products, k)
  {
    hide Knn, AllScored, Exact, Uniform;
    if products != [] {
      PartitionScored(env, profile, records, table, scope, products[0], query, d, k);
      MergedWinners(env, profile, records, table, scope, products[1..], query, d, k);
    }
  }

  lemma {:induction false} AllConfirmed(env: Env, profile: Profile, records: map<nat, Row>, chosen: seq<Candidate>)
    requires forall c :: c in chosen ==> Confirmed(env, profile, records, c)
    ensures ConfirmedHits(env, profile, records, chosen) == BruteHits(records, chosen)
  {
    if chosen != [] { AllConfirmed(env, profile, records, chosen[1..]); }
  }

  lemma {:induction false} SortedRowids(s: seq<Candidate>)
    requires forall i, j :: 0 <= i < j < |s| ==> s[i].rowid != s[j].rowid
    ensures forall i, j :: 0 <= i < j < |Sort(s, NEARER)| ==> Sort(s, NEARER)[i].rowid != Sort(s, NEARER)[j].rowid
  {
    if s != [] {
      SortedRowids(s[1..]);
      InsertRowids(s[0], Sort(s[1..], NEARER));
    }
  }

  lemma {:induction false} InsertRowids(x: Candidate, s: seq<Candidate>)
    requires forall i, j :: 0 <= i < j < |s| ==> s[i].rowid != s[j].rowid
    requires forall c :: c in s ==> c.rowid != x.rowid
    ensures forall i, j :: 0 <= i < j < |Insert(x, s, NEARER)| ==>
              Insert(x, s, NEARER)[i].rowid != Insert(x, s, NEARER)[j].rowid
    ensures forall c :: c in Insert(x, s, NEARER) <==> c == x || c in s
  {
    if s != [] && !NEARER(x, s[0]) {
      InsertRowids(x, s[1..]);
      var rest := Insert(x, s[1..], NEARER);
      assert forall c :: c in s <==> c == s[0] || c in s[1..];
      forall j | 0 <= j < |rest| ensures rest[j].rowid != s[0].rowid {
        assert rest[j] in rest;
        if rest[j] in s[1..] { var i :| 0 <= i < |s[1..]| && s[1..][i] == rest[j]; assert s[i + 1] == rest[j]; }
      }
    }
  }

  /** Both searches choose the same candidates. */
  lemma SameChoice(
    env: Env, profile: Profile, records: map<nat, Row>, table: map<nat, VecRow>, scope: Option<string>,
    products: seq<string>, query: Vector, d: Metric, k: nat)
    requires Exact(env, profile, records, table) && Uniform(env, profile, records)
    requires |query| == env.dim(profile) && ProductList(env, profile, records, scope, products)
    ensures Nearest(Merged(table, products, query, d, k), k) == Nearest(AllScored(records, scope, query, d), k)
  {
    hide Merged, Exact;
    var all := AllScored(records, scope, query, d);
    AllScoredMembers(records, scope, query, d);
    NearerIsOrder(all);
    SortSorted(all, NEARER);
    SortedRowids(all);
    forall p | p in products ensures InScope(p, scope) {}
    MergedWinners(env, profile, records, table, scope, products, query, d, k);
    forall c | c in Sort(all, NEARER) ensures c.product in products {
      assert c in all;
      assert Canonical(env, profile, records[c.rowid]);
    }
    TopOfWinners(Sort(all, NEARER), products, k);
  }

  /**
   * When the vector table is exact, searching it product by product, merging, cutting and confirming gives
   * exactly the answer of scoring every record: for every query of the profile's dimension, every limit,
   * any number of products, and with or without a product filter.
   */
  lemma DenseSearchesAgree(
    env: Env, profile: Profile, records: map<nat, Row>, table: map<nat, VecRow>, scope: Option<string>,
    products: seq<string>, query: Vector, d: Metric, k: nat)
    requires Exact(env, profile, records, table) && Uniform(env, profile, records)
    requires |query| == env.dim(profile) && ProductList(env, profile, records, scope, products)
    ensures DenseVec0(env, profile, records, table, products, query, d, k) == DenseBrute(records, scope, query, d, k)
  {
    hide Merged, Exact, ProductList;
    SameChoice(env, profile, records, table, scope, products, query, d, k);
    AllScoredMembers(records, scope, query, d);
    var all := AllScored(records, scope, query, d);
    var chosen := Nearest(all, k);
    forall c | c in chosen ensures Confirmed(env, profile, records, c) {
      assert c in Sort(all, NEARER);
      assert c in all;
    }
    AllConfirmed(env, profile, records, chosen);
  }

  lemma {:induction false} ConfirmedOnly(env: Env, profile: Profile, records: map<nat, Row>, chosen: seq<Candidate>, h: DenseHit)
    requires h in ConfirmedHits(env, profile, records, chosen)
    ensures exists c :: c in chosen && Confirmed(env, profile, records, c) && h == Hit(records, c)
  {
    if Confirmed(env, profile, records, chosen[0]) && h == Hit(records, chosen[0]) {
    } else {
      ConfirmedOnly(env, profile, records, chosen[1..], h);
    }
  }

  lemma {:induction false} MergedFrom(table: map<nat, VecRow>, products: seq<string>, query: Vector, d: Metric, k: nat, c: Candidate)
    requires c in Merged(table, products, query, d, k)
    ensures c.rowid in table && table[c.rowid].product == c.product && c.distance == d(query, table[c.rowid].embedding)
  {
    var rowids := Ascending(PartitionRows(table, products[0]));
    if c in Knn(table, products[0], query, d, k) {
      var mapped := Map((r: nat) => VecCandidate(table, products[0], query, d, r), rowids);
      assert c in Sort(mapped, NEARER);
      assert c in mapped;
      MapIsScored(table, products[0], query, d, rowids, c);
    } else {
      MergedFrom(table, products[1..], query, d, k, c);
    }
  }

  /** Under the marker invariant alone a vector hit may be missing, but none is wrong: each carries its record's true distance. */
  lemma SoundHitsAreTrue(
    env: Env, profile: Profile, records: map<nat, Row>, table: map<nat, VecRow>, products: seq<string>,
    query: Vector, d: Metric, k: nat, h: DenseHit)
    requires TableSound(records, table) && h in DenseVec0(env, profile, records, table, products, query, d, k)
    ensures h.rowid in records && h.record == records[h.rowid] && Canonical(env, profile, h.record)
    ensures h.distance == d(query, h.record.embedding.value) && h.record.product in products
  {
    var merged := Merged(table, products, query, d, k);
    ConfirmedOnly(env, profile, records, Nearest(merged, k), h);
    var c :| c in Nearest(merged, k) && Confirmed(env, profile, records, c) && h == Hit(records, c);
    assert c in Sort(merged, NEARER);
    assert c in merged;
    MergedFrom(table, products, query, d, k, c);
    assert RowSound(records, table, c.rowid);
    MergedProducts(table, products, query, d, k, c);
  }

  lemma {:induction false} MergedProducts(table: map<nat, VecRow>, products: seq<string>, query: Vector, d: Metric, k: nat, c: Candidate)
    requires c in Merged(table, products, query, d, k)
    ensures c.product in products
  {
    var rowids := Ascending(PartitionRows(table, products[0]));
    if c in Knn(table, products[0], query, d, k) {
      var mapped := Map((r: nat) => VecCandidate(table, products[0], query, d, r), rowids);
      assert c in Sort(mapped, NEARER);
      MapIsScored(table, products[0], query, d, rowids, c);
    } else {
      MergedProducts(table, products[1..], query, d, k, c);
    }
  }
}
