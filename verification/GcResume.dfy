/**
 * Interrupted collection: what a rerun plans after some of the planned removals, and the chains for which
 * the answer is not simply the rest.
 */
module GcResume {
  import opened Prelude
  import opened StableSort
  import opened TextOrder
  import opened TextSets
  import opened Anchors
  import opened Outcomes
  import opened BundleLoad
  import opened Gc

  ghost predicate DistinctIds(bundles: seq<LoadedBundle>) {
    forall i, j :: 0 <= i < j < |bundles| ==> Id(bundles[i]) != Id(bundles[j])
  }

  lemma SameIdSame(bundles: seq<LoadedBundle>, a: LoadedBundle, b: LoadedBundle)
    requires DistinctIds(bundles) && a in bundles && b in bundles && Id(a) == Id(b)
    ensures a == b
  {
    var i :| 0 <= i < |bundles| && bundles[i] == a;
    var j :| 0 <= j < |bundles| && bundles[j] == b;
  }

  lemma DistinctBundles(bundles: seq<LoadedBundle>)
    requires DistinctIds(bundles)
    ensures Distinct(bundles)
  {
  }

  /** Without duplicates, looking an id up finds its bundle. */
  lemma LookupIs(bundles: seq<LoadedBundle>, b: LoadedBundle)
    requires DistinctIds(bundles) && b in bundles
    ensures LastWith(bundles, Id(b)) == Some(b) && Effective(bundles, b)
  {
    SameIdSame(bundles, LastWith(bundles, Id(b)).value, b);
  }

  lemma {:induction false} DistinctIdsOf(a: seq<LoadedBundle>, b: seq<LoadedBundle>)
    requires DistinctIds(a) && multiset(a) == multiset(b)
    ensures DistinctIds(b)
  {
    DistinctBundles(a);
    forall x ensures multiset(b)[x] <= 1 { CountOnce(a, x); }
    forall i, j | 0 <= i < j < |b| ensures Id(b[i]) != Id(b[j]) {
      assert b[i] in multiset(b) && b[j] in multiset(b);
      if Id(b[i]) == Id(b[j]) {
        SameIdSame(a, b[i], b[j]);
        TwiceCounted(b, i, j);
      }
    }
  }

  lemma TwiceCounted(b: seq<LoadedBundle>, i: nat, j: nat)
    requires i < j < |b| && b[i] == b[j]
    ensures multiset(b)[b[i]] >= 2
  {
    assert b == b[..i] + [b[i]] + b[i + 1..j] + [b[j]] + b[j + 1..];
  }

  // ----- who puts whom into a chain -----

  /** A surviving supersession the fold counts, whatever the latest build is. */
  predicate Counted(e: Event) { e.kind.Superseded? && e.ordinal >= 1 }

  /** This bundle puts that record into the chain: by being superseded itself, or by having been superseded by it. */
  predicate Contributes(r: Rules, key: string, x: LoadedBundle, id: string) {
    exists e :: e in Surviving(x.events) && Counted(e) && InChain(r, x, key) && (Id(x) == id || e.kind.byRecordId == id)
  }

  lemma SurvivingAreEvents(events: seq<Event>)
    ensures forall e :: e in Surviving(events) ==> e in events
  {
    DedupeShape(events, {});
  }

  lemma CountsIff(bundles: seq<LoadedBundle>, b: LoadedBundle, e: Event)
    requires b in bundles && e in Surviving(b.events)
    ensures Counts(e, LatestBuildOrdinal(bundles)) <==> Counted(e)
  {
    SurvivingAreEvents(b.events);
  }

  lemma {:induction false} SupersededOfMembers(snapshots: seq<LoadedBundle>, ids: seq<string>, b: LoadedBundle)
    requires DistinctIds(snapshots)
    ensures b in SupersededOf(snapshots, ids) <==> b in snapshots && IsSuperseded(b) && Id(b) in ids
  {
    hide IsSuperseded;
    if ids != [] {
      SupersededOfMembers(snapshots, ids[1..], b);
      if b in snapshots { LookupIs(snapshots, b); }
    }
  }

  lemma SnapshotsKeep(bundles: seq<LoadedBundle>)
    requires DistinctIds(bundles)
    ensures DistinctIds(Snapshots(bundles)) && forall b :: b in Snapshots(bundles) <==> b in bundles
  {
    DistinctIdsOf(bundles, Snapshots(bundles));
  }

  lemma {:induction false} SupersededOfDistinct(snapshots: seq<LoadedBundle>, ids: seq<string>)
    requires DistinctIds(snapshots) && Distinct(ids)
    ensures DistinctIds(SupersededOf(snapshots, ids))
  {
    hide IsSuperseded;
    if ids != [] {
      SupersededOfDistinct(snapshots, ids[1..]);
      var rest := SupersededOf(snapshots, ids[1..]);
      forall j | 0 <= j < |rest| ensures Id(rest[j]) != ids[0] {
        SupersededOfMembers(snapshots, ids[1..], rest[j]);
        assert rest[j] in rest;
      }
    }
  }

  lemma SnapshotChain(r: Rules, bundles: seq<LoadedBundle>, key: string, id: string)
    ensures id in ChainIds(r, Snapshots(bundles), key, LatestBuildOrdinal(Snapshots(bundles))) <==>
            exists x :: x in bundles && Contributes(r, key, x, id)
  {
    hide InChain, Surviving, LatestBuildOrdinal;
    var snapshots := Snapshots(bundles);
    var asOf := LatestBuildOrdinal(snapshots);
    assert forall b :: b in snapshots <==> b in bundles;
    forall x, e | x in snapshots && e in Surviving(x.events) ensures Counts(e, asOf) <==> Counted(e) {
      CountsIff(snapshots, x, e);
    }
    if x :| x in bundles && Contributes(r, key, x, id) {
      var e :| e in Surviving(x.events) && Counted(e) && InChain(r, x, key) && (Id(x) == id || e.kind.byRecordId == id);
      assert x in snapshots && Counts(e, asOf);
    }
  }

  /** The ranking of a chain: its superseded members, each once, in rank order. */
  lemma RankedShape(r: Rules, bundles: seq<LoadedBundle>, key: string)
    requires DistinctIds(bundles)
    ensures
      var ranked := Ranked(r, bundles, key);
      && DistinctIds(ranked) && Sorted(ranked, RANK)
      && forall b :: b in ranked <==>
           b in bundles && IsSuperseded(b) && exists x :: x in bundles && Contributes(r, key, x, Id(b))
  {
    hide IsSuperseded, Surviving, Snapshots, ChainIds, LatestBuildOrdinal, Contributes;
    var snapshots := Snapshots(bundles);
    SnapshotsKeep(bundles);
    var ids := SortedSet(ChainIds(r, snapshots, key, LatestBuildOrdinal(snapshots)));
    var members := SupersededOf(snapshots, ids);
    assert Distinct(ids);
    SupersededOfDistinct(snapshots, ids);
    RankIsPreorder();
    SortSorted(members, RANK);
    DistinctIdsOf(members, Sort(members, RANK));
    forall b ensures b in members <==>
      b in bundles && IsSuperseded(b) && exists x :: x in bundles && Contributes(r, key, x, Id(b))
    {
      SupersededOfMembers(snapshots, ids, b);
      SnapshotChain(r, bundles, key, Id(b));
    }
  }

  // ----- removing some of the plan -----

  function Survives(removed: set<string>): LoadedBundle -> bool { (b: LoadedBundle) => Id(b) !in removed }

  function Remaining(bundles: seq<LoadedBundle>, removed: set<string>): seq<LoadedBundle> {
    Filter(bundles, Survives(removed))
  }

  lemma {:induction false} RemainingDistinct(bundles: seq<LoadedBundle>, removed: set<string>)
    requires DistinctIds(bundles)
    ensures DistinctIds(Remaining(bundles, removed))
  {
    if bundles != [] {
      RemainingDistinct(bundles[1..], removed);
      var rest := Remaining(bundles[1..], removed);
      forall j | 0 <= j < |rest| ensures Id(rest[j]) != Id(bundles[0]) {
        assert rest[j] in rest;
        var i :| 0 <= i < |bundles[1..]| && bundles[1..][i] == rest[j];
        assert Id(bundles[0]) != Id(bundles[i + 1]);
      }
    }
  }

  lemma RankAntisymmetric(s: seq<LoadedBundle>)
    requires DistinctIds(s)
    ensures Antisymmetric(RANK, s)
  {
    hide LatestSupersession;
    TextOrderLaws();
    forall x, y | x in s && y in s && RANK(x, y) && RANK(y, x) ensures x == y { SameIdSame(s, x, y); }
  }

  /** Every superseded survivor that a removed bundle put into the chain is put there by a survivor too. */
  predicate ChainKept(r: Rules, bundles: seq<LoadedBundle>, removed: set<string>, key: string) {
    forall b, x :: b in bundles && x in bundles && Id(b) !in removed && Id(x) in removed
      && IsSuperseded(b) && Contributes(r, key, x, Id(b))
      ==> exists y :: y in bundles && Id(y) !in removed && Contributes(r, key, y, Id(b))
  }

  lemma RankedSurvivors(r: Rules, bundles: seq<LoadedBundle>, removed: set<string>, key: string, b: LoadedBundle)
    requires DistinctIds(bundles)
    ensures b in Ranked(r, Remaining(bundles, removed), key) <==>
            b in bundles && Id(b) !in removed && IsSuperseded(b)
            && exists y :: y in bundles && Id(y) !in removed && Contributes(r, key, y, Id(b))
    ensures b in Filter(Ranked(r, bundles, key), Survives(removed)) <==>
            b in bundles && Id(b) !in removed && IsSuperseded(b)
            && exists y :: y in bundles && Contributes(r, key, y, Id(b))
  {
    hide Ranked, IsSuperseded, Contributes;
    var left := Remaining(bundles, removed);
    RemainingDistinct(bundles, removed);
    RankedShape(r, bundles, key);
    RankedShape(r, left, key);
    assert forall y :: y in left <==> y in bundles && Id(y) !in removed;
  }

  /** Removing bundles takes them out of a ranking and changes nothing else exactly when the chain is kept. */
  lemma RankedRemainingIff(r: Rules, bundles: seq<LoadedBundle>, removed: set<string>, key: string)
    requires DistinctIds(bundles)
    ensures Ranked(r, Remaining(bundles, removed), key) == Filter(Ranked(r, bundles, key), Survives(removed))
            <==> ChainKept(r, bundles, removed, key)
  {
    hide Ranked, IsSuperseded, Contributes;
    var left := Remaining(bundles, removed);
    var a, b := Ranked(r, left, key), Filter(Ranked(r, bundles, key), Survives(removed));
    forall x ensures x in a ==> x in b { RankedSurvivors(r, bundles, removed, key, x); }
    if ChainKept(r, bundles, removed, key) {
      forall x ensures x in b ==> x in a { RankedSurvivors(r, bundles, removed, key, x); }
      SameRanking(r, bundles, removed, key);
    } else {
      var x, y :| x in bundles && y in bundles && Id(x) !in removed && Id(y) in removed
        && IsSuperseded(x) && Contributes(r, key, y, Id(x))
        && !exists z :: z in bundles && Id(z) !in removed && Contributes(r, key, z, Id(x));
      RankedSurvivors(r, bundles, removed, key, x);
      assert x in b && x !in a;
    }
  }

  lemma SameRanking(r: Rules, bundles: seq<LoadedBundle>, removed: set<string>, key: string)
    requires DistinctIds(bundles)
    requires forall x :: x in Ranked(r, Remaining(bundles, removed), key) <==> x in Filter(Ranked(r, bundles, key), Survives(removed))
    ensures Ranked(r, Remaining(bundles, removed), key) == Filter(Ranked(r, bundles, key), Survives(removed))
  {
    hide Ranked, IsSuperseded, Contributes;
    RemainingDistinct(bundles, removed);
    RankedShape(r, bundles, key);
    RankedShape(r, Remaining(bundles, removed), key);
    var a, b := Ranked(r, Remaining(bundles, removed), key), Filter(Ranked(r, bundles, key), Survives(removed));
    RankIsPreorder();
    FilterSorted(Ranked(r, bundles, key), RANK, Survives(removed));
    RemainingDistinct(Ranked(r, bundles, key), removed);
    DistinctBundles(a);
    DistinctBundles(b);
    DistinctSameElements(a, b);
    RankAntisymmetric(a);
    forall x | x in a ensures RANK(x, x) {}
    SortedUnique(a, b, RANK);
  }

  ghost predicate ChainsKept(r: Rules, bundles: seq<LoadedBundle>, removed: set<string>) {
    forall key :: ChainKept(r, bundles, removed, key)
  }

  /**
   * Every superseded record that a planned bundle puts into a chain is put there by itself or by a bundle
   * that stays.
   */
  ghost predicate Anchored(r: Rules, bundles: seq<LoadedBundle>, planned: set<string>) {
    forall key, b, x :: b in bundles && x in bundles && Id(x) in planned && IsSuperseded(b) && Contributes(r, key, x, Id(b))
      ==> exists y :: y in bundles && (Id(y) !in planned || Id(y) == Id(b)) && Contributes(r, key, y, Id(b))
  }

  /** That is what keeps every chain whichever of the planned removals have happened. */
  lemma AnchoredIff(r: Rules, bundles: seq<LoadedBundle>, planned: set<string>)
    ensures Anchored(r, bundles, planned) <==> forall some :: some <= planned ==> ChainsKept(r, bundles, some)
  {
    hide IsSuperseded, Contributes;
    if Anchored(r, bundles, planned) {
      forall some | some <= planned ensures ChainsKept(r, bundles, some) {}
    }
    if forall some :: some <= planned ==> ChainsKept(r, bundles, some) {
      forall key, b, x | b in bundles && x in bundles && Id(x) in planned && IsSuperseded(b) && Contributes(r, key, x, Id(b))
        ensures exists y :: y in bundles && (Id(y) !in planned || Id(y) == Id(b)) && Contributes(r, key, y, Id(b))
      {
        if Id(x) != Id(b) {
          var some := planned - {Id(b)};
          assert ChainsKept(r, bundles, some);
          assert ChainKept(r, bundles, some, key);
        }
      }
    }
  }

  lemma FilterKeepsTop(s: seq<LoadedBundle>, p: LoadedBundle -> bool, k: nat)
    requires forall x :: x in Take(s, k) ==> p(x)
    ensures Take(Filter(s, p), k) == Take(s, k)
  {
    var n := if k < |s| then k else |s|;
    var top := Take(s, k);
    assert s == s[..n] + s[n..] && top == s[..n];
    FilterAppend(s[..n], s[n..], p);
    FilterAll(s[..n], p);
    if n == |s| { assert s[n..] == []; }
  }

  /** Removing only records beyond rank K protects the same records as before. */
  lemma WithinKRemaining(r: Rules, bundles: seq<LoadedBundle>, removed: set<string>, k: nat)
    requires DistinctIds(bundles) && ChainsKept(r, bundles, removed) && removed !! WithinK(r, bundles, k)
    ensures WithinK(r, Remaining(bundles, removed), k) == WithinK(r, bundles, k)
  {
    hide Ranked, ChainKept;
    var left := Remaining(bundles, removed);
    forall key ensures Take(Ranked(r, left, key), k) == Take(Ranked(r, bundles, key), k) {
      RankedRemainingIff(r, bundles, removed, key);
      if key !in ChainKeys(r, bundles) { NoChain(r, bundles, key); }
      forall x | x in Take(Ranked(r, bundles, key), k) ensures Survives(removed)(x) {
        assert key in ChainKeys(r, bundles);
        assert Id(x) in WithinK(r, bundles, k);
      }
      FilterKeepsTop(Ranked(r, bundles, key), Survives(removed), k);
    }
    forall key ensures key !in ChainKeys(r, left) ==> Take(Ranked(r, left, key), k) == [] {
      if key !in ChainKeys(r, left) { NoChain(r, left, key); }
    }
    assert ChainKeys(r, left) <= ChainKeys(r, bundles);
  }

  lemma SupersededIdsRemaining(r: Rules, bundles: seq<LoadedBundle>, removed: set<string>)
    requires DistinctIds(bundles) && ChainsKept(r, bundles, removed)
    ensures SupersededIds(r, Remaining(bundles, removed)) == SupersededIds(r, bundles) - removed
  {
    hide Ranked, ChainKept;
    var left := Remaining(bundles, removed);
    forall key ensures Ranked(r, left, key) == Filter(Ranked(r, bundles, key), Survives(removed)) {
      RankedRemainingIff(r, bundles, removed, key);
    }
    forall key ensures key !in ChainKeys(r, left) ==> Ranked(r, left, key) == [] {
      if key !in ChainKeys(r, left) { NoChain(r, left, key); }
    }
    assert ChainKeys(r, left) <= ChainKeys(r, bundles);
    forall id | id in SupersededIds(r, bundles) - removed ensures id in SupersededIds(r, left) {
      var key, b :| key in ChainKeys(r, bundles) && b in Ranked(r, bundles, key) && Id(b) == id;
      assert b in Filter(Ranked(r, bundles, key), Survives(removed));
      assert key in ChainKeys(r, left);
    }
  }

  /** No removed record is a live unknown, so the references that protect others stay. */
  lemma UnknownRefsRemaining(r: Rules, bundles: seq<LoadedBundle>, removed: set<string>)
    requires DistinctIds(bundles) && UnknownsReadable(r, bundles)
    requires forall b :: b in bundles && Id(b) in removed ==> IsSuperseded(b)
    ensures UnknownsReadable(r, Remaining(bundles, removed))
    ensures UnknownRefs(r, Remaining(bundles, removed)) == UnknownRefs(r, bundles)
  {
    hide TrustOf, Conflicts, LastWith;
    var left := Remaining(bundles, removed);
    RemainingDistinct(bundles, removed);
    forall b | b in bundles ensures Effective(bundles, b) { LookupIs(bundles, b); }
    forall b | b in left ensures Effective(left, b) { LookupIs(left, b); }
    assert forall b :: b in bundles && LiveUnknown(b) <==> b in left && LiveUnknown(b);
  }

  lemma LookupRemaining(bundles: seq<LoadedBundle>, removed: set<string>, id: string)
    requires DistinctIds(bundles) && id !in removed
    ensures LastWith(Remaining(bundles, removed), id) == LastWith(bundles, id)
  {
    var left := Remaining(bundles, removed);
    RemainingDistinct(bundles, removed);
    var o := LastWith(bundles, id);
    if o.Some? {
      assert Survives(removed)(o.value) && o.value in left;
      LookupIs(left, o.value);
    } else {
      assert forall b :: b in left ==> b in bundles;
    }
  }

  /** A rerun after any of the planned removals judges every remaining record as the first run did. */
  lemma VerdictRemaining(r: Rules, bundles: seq<LoadedBundle>, k: nat, h: Horizon, removed: set<string>, id: string)
    requires DistinctIds(bundles) && ChainsKept(r, bundles, removed) && UnknownsReadable(r, bundles)
    requires forall x :: x in removed ==> x in Plan(r, bundles, k, h)
    requires id !in removed
    ensures UnknownsReadable(r, Remaining(bundles, removed))
    ensures VerdictOf(r, Remaining(bundles, removed), k, h, id) == VerdictOf(r, bundles, k, h, id)
  {
    hide Ranked, ChainsKept, UnknownsReadable, WithinK, SupersededIds, UnknownRefs, LastWith, TrustOf, Plan;
    RemovedArePlanned(r, bundles, k, h, removed);
    WithinKRemaining(r, bundles, removed, k);
    SupersededIdsRemaining(r, bundles, removed);
    UnknownRefsRemaining(r, bundles, removed);
    LookupRemaining(bundles, removed, id);
  }

  lemma RemovedArePlanned(r: Rules, bundles: seq<LoadedBundle>, k: nat, h: Horizon, removed: set<string>)
    requires DistinctIds(bundles) && UnknownsReadable(r, bundles)
    requires forall x :: x in removed ==> x in Plan(r, bundles, k, h)
    ensures removed !! WithinK(r, bundles, k)
    ensures forall b :: b in bundles && Id(b) in removed ==> IsSuperseded(b)
  {
    hide UnknownsReadable, WithinK, TrustOf, Plan, LiveUnknown;
    forall x | x in removed ensures x !in WithinK(r, bundles, k) { TrimIsSafe(r, bundles, k, h, x); }
    forall b | b in bundles && Id(b) in removed ensures IsSuperseded(b) {
      TrimIsSafe(r, bundles, k, h, Id(b));
      LookupIs(bundles, b);
    }
  }

  function NotIn(removed: set<string>): string -> bool { (id: string) => id !in removed }

  /**
   * If its removals so far kept every chain, a run that lost its authority is resumed exactly: the rerun
   * plans the planned records that are still there, in the same order.
   */
  lemma ResumePlansTheRest(r: Rules, bundles: seq<LoadedBundle>, k: nat, h: Horizon, removed: set<string>)
    requires DistinctIds(bundles) && ChainsKept(r, bundles, removed) && UnknownsReadable(r, bundles)
    requires forall x :: x in removed ==> x in Plan(r, bundles, k, h)
    ensures UnknownsReadable(r, Remaining(bundles, removed))
    ensures Plan(r, Remaining(bundles, removed), k, h) == Filter(Plan(r, bundles, k, h), NotIn(removed))
  {
    hide Ranked, ChainsKept, UnknownsReadable, SupersededIds, VerdictOf, DistinctIds, Remaining;
    var left := Remaining(bundles, removed);
    StillReadable(r, bundles, k, h, removed);
    SupersededIdsRemaining(r, bundles, removed);
    var plan := Plan(r, bundles, k, h);
    var rest := Plan(r, left, k, h);
    FilterIncreasing(SortedSet(SupersededIds(r, bundles)), IsTrimmed(r, bundles, k, h));
    FilterIncreasing(plan, NotIn(removed));
    FilterIncreasing(SortedSet(SupersededIds(r, left)), IsTrimmed(r, left, k, h));
    forall id ensures id in rest <==> id in Filter(plan, NotIn(removed)) {
      if id !in removed { VerdictRemaining(r, bundles, k, h, removed, id); }
    }
    IncreasingUnique(rest, Filter(plan, NotIn(removed)));
  }

  lemma StillReadable(r: Rules, bundles: seq<LoadedBundle>, k: nat, h: Horizon, removed: set<string>)
    requires DistinctIds(bundles) && UnknownsReadable(r, bundles)
    requires forall x :: x in removed ==> x in Plan(r, bundles, k, h)
    ensures UnknownsReadable(r, Remaining(bundles, removed))
  {
    hide Plan, IsSuperseded, UnknownsReadable, UnknownRefs;
    RemovedArePlanned(r, bundles, k, h, removed);
    UnknownRefsRemaining(r, bundles, removed);
  }

  /** In particular, a rerun after a completed run plans nothing. */
  lemma RerunPlansNothing(r: Rules, bundles: seq<LoadedBundle>, k: nat, h: Horizon)
    requires DistinctIds(bundles) && UnknownsReadable(r, bundles)
    requires ChainsKept(r, bundles, SetOf(Plan(r, bundles, k, h)))
    ensures
      var left := Remaining(bundles, SetOf(Plan(r, bundles, k, h)));
      UnknownsReadable(r, left) && Plan(r, left, k, h) == []
  {
    hide ChainsKept, UnknownsReadable, Plan, Remaining;
    var plan := Plan(r, bundles, k, h);
    ResumePlansTheRest(r, bundles, k, h, SetOf(plan));
    FilterNone(plan, NotIn(SetOf(plan)));
  }

  // ----- the removals themselves -----

  lemma LastFiltered(front: seq<LoadedBundle>, last: LoadedBundle, removed: set<string>)
    ensures Remaining(front + [last], removed) ==
            Remaining(front, removed) + (if Id(last) in removed then [] else [last])
  {
    FilterAppend(front, [last], Survives(removed));
    assert [last][1..] == [];
  }

  lemma {:induction false} WithoutIs(bundles: seq<LoadedBundle>, id: string)
    requires DistinctIds(bundles)
    ensures Without(bundles, id) == Remaining(bundles, {id})
  {
    if bundles != [] {
      var front, last := bundles[..|bundles| - 1], bundles[|bundles| - 1];
      assert bundles == front + [last];
      LastFiltered(front, last, {id});
      if Id(last) == id {
        forall b | b in front ensures Survives({id})(b) {
          var i :| 0 <= i < |front| && front[i] == b;
          assert Id(bundles[i]) != Id(bundles[|front|]);
        }
        FilterAll(front, Survives({id}));
        assert front + [] == front;
      } else {
        FrontDistinct(bundles);
        WithoutIs(front, id);
      }
    }
  }

  lemma FrontDistinct(bundles: seq<LoadedBundle>)
    requires bundles != [] && DistinctIds(bundles)
    ensures DistinctIds(bundles[..|bundles| - 1])
  {
    var front := bundles[..|bundles| - 1];
    forall i, j | 0 <= i < j < |front| ensures Id(front[i]) != Id(front[j]) {
      assert front[i] == bundles[i] && front[j] == bundles[j];
    }
  }

  lemma {:induction false} WithoutAllIs(bundles: seq<LoadedBundle>, ids: seq<string>)
    requires DistinctIds(bundles)
    ensures WithoutAll(bundles, ids) == Remaining(bundles, SetOf(ids))
  {
    if ids == [] {
      FilterAll(bundles, Survives({}));
      FilterCongruent(bundles, Survives({}), Survives(SetOf(ids)));
    } else {
      var front, last := ids[..|ids| - 1], ids[|ids| - 1];
      assert ids == front + [last];
      WithoutAllIs(bundles, front);
      RemainingDistinct(bundles, SetOf(front));
      WithoutIs(Remaining(bundles, SetOf(front)), last);
      FilterBothIds(bundles, SetOf(front), last, SetOf(ids));
    }
  }

  lemma {:induction false} FilterBothIds(bundles: seq<LoadedBundle>, a: set<string>, id: string, both: set<string>)
    requires both == a + {id}
    ensures Remaining(Remaining(bundles, a), {id}) == Remaining(bundles, both)
  {
    if bundles != [] {
      FilterBothIds(bundles[1..], a, id, both);
      var rest := Remaining(bundles[1..], a);
      assert ([bundles[0]] + rest)[1..] == rest;
    }
  }

  lemma FilterSecond(a: seq<string>, b: seq<string>, p: string -> bool)
    requires (forall x :: x in a ==> !p(x)) && (forall x :: x in b ==> p(x))
    ensures Filter(a + b, p) == b
  {
    FilterAppend(a, b, p);
    FilterNone(a, p);
    FilterAll(b, p);
  }

  lemma PrefixRemoved(s: seq<string>, n: nat)
    requires n <= |s| && Distinct(s)
    ensures Filter(s, NotIn(SetOf(s[..n]))) == s[n..]
  {
    forall x | x in s[n..] ensures x !in s[..n] {
      var i :| 0 <= i < |s[n..]| && s[n..][i] == x;
      assert s[n + i] == x;
    }
    FilterSecond(s[..n], s[n..], NotIn(SetOf(s[..n])));
    assert s == s[..n] + s[n..];
  }

  /** Authority lost before removal n: the rerun plans exactly the entries from n on. */
  lemma InterruptedRunResumes(r: Rules, bundles: seq<LoadedBundle>, k: nat, h: Horizon, n: nat)
    requires DistinctIds(bundles) && UnknownsReadable(r, bundles) && n <= |Plan(r, bundles, k, h)|
    requires ChainsKept(r, bundles, SetOf(Plan(r, bundles, k, h)[..n]))
    ensures
      var plan := Plan(r, bundles, k, h);
      var left := WithoutAll(bundles, plan[..n]);
      UnknownsReadable(r, left) && Plan(r, left, k, h) == plan[n..]
  {
    hide ChainsKept, UnknownsReadable, Remaining, VerdictOf, SupersededIds;
    var plan := Plan(r, bundles, k, h);
    FilterIncreasing(SortedSet(SupersededIds(r, bundles)), IsTrimmed(r, bundles, k, h));
    hide Plan;
    WithoutAllIs(bundles, plan[..n]);
    ResumePlansTheRest(r, bundles, k, h, SetOf(plan[..n]));
    PrefixRemoved(plan, n);
  }

  /** If the planned removals are anchored, every interruption is resumed exactly. */
  lemma AnyInterruptionResumes(r: Rules, bundles: seq<LoadedBundle>, k: nat, h: Horizon, n: nat)
    requires DistinctIds(bundles) && UnknownsReadable(r, bundles) && n <= |Plan(r, bundles, k, h)|
    requires Anchored(r, bundles, SetOf(Plan(r, bundles, k, h)))
    ensures
      var plan := Plan(r, bundles, k, h);
      var left := WithoutAll(bundles, plan[..n]);
      UnknownsReadable(r, left) && Plan(r, left, k, h) == plan[n..]
  {
    hide Anchored, ChainsKept, UnknownsReadable, Plan;
    var plan := Plan(r, bundles, k, h);
    AnchoredIff(r, bundles, SetOf(plan));
    assert SetOf(plan[..n]) <= SetOf(plan);
    InterruptedRunResumes(r, bundles, k, h, n);
  }

  // ----- chains that cross keys -----

  /** A bundle whose one event supersedes it after its creation. */
  predicate OnceSuperseded(b: LoadedBundle, e: Event) {
    && b.events == [e] && e.kind.Superseded? && e.ordinal >= 1 && e.ordinal > b.manifest.createdAtOrdinal
    && !b.front.kind.Unknown? && !b.front.originClass.User?
  }

  lemma OnceSupersededIs(b: LoadedBundle, e: Event)
    requires OnceSuperseded(b, e)
    ensures Surviving(b.events) == [e] && IsSuperseded(b) && LatestSupersession(b) == e.ordinal
  {
    var events := [e];
    assert events[..0] == [];
    FreshEffect([], e);
    assert [] + [e] == [e] && Surviving([]) == [];
    assert Surviving(events) == [e];
    assert FoldAll([], b.manifest.createdAtOrdinal) ==
           Fold(Counters(0, 0, 0, 0), Standing(b.manifest.createdAtOrdinal, Candidate), None, None);
    assert FoldAll(events, b.manifest.createdAtOrdinal).standing == Standing(e.ordinal, SupersededStatus);
    assert Filter([e], (x: Event) => x.kind.Superseded?) == [e];
    assert MaxOrdinal([], b.manifest.createdAtOrdinal) == b.manifest.createdAtOrdinal;
  }

  /** The ranking as a list, when its members and their order are known. */
  lemma RankedIs(r: Rules, bundles: seq<LoadedBundle>, key: string, expected: seq<LoadedBundle>)
    requires DistinctIds(bundles) && DistinctIds(expected) && Sorted(expected, RANK)
    requires forall b :: b in expected <==>
      b in bundles && IsSuperseded(b) && exists x :: x in bundles && Contributes(r, key, x, Id(b))
    ensures Ranked(r, bundles, key) == expected
  {
    hide Ranked, IsSuperseded, Contributes;
    RankedShape(r, bundles, key);
    var ranked := Ranked(r, bundles, key);
    DistinctBundles(ranked);
    DistinctBundles(expected);
    DistinctSameElements(ranked, expected);
    RankAntisymmetric(ranked);
    RankIsPreorder();
    SortedUnique(ranked, expected, RANK);
  }

  /** A record x superseded by y under another key, while y and then w are superseded under theirs. */
  predicate CrossedChains(r: Rules, x: LoadedBundle, y: LoadedBundle, w: LoadedBundle, ex: Event, ey: Event, ew: Event) {
    && OnceSuperseded(x, ex) && OnceSuperseded(y, ey) && OnceSuperseded(w, ew)
    && ex.kind.byRecordId == Id(y) && ey.kind.byRecordId == Id(w)
    && ew.kind.byRecordId != Id(x) && ew.kind.byRecordId != Id(y) && ew.kind.byRecordId != Id(w)
    && Id(x) != Id(y) && Id(y) != Id(w) && Id(x) != Id(w)
    && ex.ordinal < ey.ordinal < ew.ordinal
    && KeyOf(r, x) != KeyOf(r, y) && KeyOf(r, y) == KeyOf(r, w)
  }

  lemma CrossedFacts(r: Rules, x: LoadedBundle, y: LoadedBundle, w: LoadedBundle, ex: Event, ey: Event, ew: Event)
    requires CrossedChains(r, x, y, w, ex, ey, ew)
    ensures IsSuperseded(x) && IsSuperseded(y) && IsSuperseded(w)
    ensures Surviving(x.events) == [ex] && Surviving(y.events) == [ey] && Surviving(w.events) == [ew]
    ensures Sorted([y, x], RANK) && Sorted([w, y], RANK)
  {
    hide IsSuperseded, Surviving, LatestSupersession, KeyOf;
    OnceSupersededIs(x, ex);
    OnceSupersededIs(y, ey);
    OnceSupersededIs(w, ew);
  }

  lemma FirstChain(r: Rules, x: LoadedBundle, y: LoadedBundle, w: LoadedBundle, ex: Event, ey: Event, ew: Event)
    requires CrossedChains(r, x, y, w, ex, ey, ew)
    ensures Ranked(r, [x, y, w], KeyOf(r, x)) == [y, x]
  {
    hide IsSuperseded, Surviving, KeyOf, Ranked;
    CrossedFacts(r, x, y, w, ex, ey, ew);
    var all, key := [x, y, w], KeyOf(r, x);
    assert ex in Surviving(x.events);
    assert Contributes(r, key, x, Id(x)) && Contributes(r, key, x, Id(y)) && !Contributes(r, key, x, Id(w));
    assert forall id :: !Contributes(r, key, y, id) && !Contributes(r, key, w, id);
    RankedIs(r, all, key, [y, x]);
  }

  lemma SecondChain(r: Rules, x: LoadedBundle, y: LoadedBundle, w: LoadedBundle, ex: Event, ey: Event, ew: Event, all: seq<LoadedBundle>)
    requires CrossedChains(r, x, y, w, ex, ey, ew) && (all == [x, y, w] || all == [y, w])
    ensures Ranked(r, all, KeyOf(r, y)) == [w, y]
  {
    hide IsSuperseded, Surviving, KeyOf, Ranked;
    CrossedFacts(r, x, y, w, ex, ey, ew);
    var key := KeyOf(r, y);
    assert ey in Surviving(y.events) && ew in Surviving(w.events);
    assert Contributes(r, key, y, Id(y)) && Contributes(r, key, w, Id(w));
    assert !Contributes(r, key, y, Id(x)) && !Contributes(r, key, w, Id(x));
    assert forall id :: !Contributes(r, key, x, id);
    RankedIs(r, all, key, [w, y]);
  }

  lemma PlanIsOne(r: Rules, bundles: seq<LoadedBundle>, id: string)
    requires UnknownsReadable(r, bundles)
    requires forall x :: x in SupersededIds(r, bundles) ==> (VerdictOf(r, bundles, 1, NoHorizon, x).Trimmed? <==> x == id)
    requires id in SupersededIds(r, bundles)
    ensures Plan(r, bundles, 1, NoHorizon) == [id]
  {
    hide VerdictOf, SupersededIds, UnknownsReadable;
    var ids := SortedSet(SupersededIds(r, bundles));
    FilterIncreasing(ids, IsTrimmed(r, bundles, 1, NoHorizon));
    IncreasingUnique(Filter(ids, IsTrimmed(r, bundles, 1, NoHorizon)), [id]);
  }

  lemma CrossedFirstSets(r: Rules, x: LoadedBundle, y: LoadedBundle, w: LoadedBundle, ex: Event, ey: Event, ew: Event)
    requires CrossedChains(r, x, y, w, ex, ey, ew)
    ensures WithinK(r, [x, y, w], 1) == {Id(y), Id(w)} && SupersededIds(r, [x, y, w]) == {Id(x), Id(y), Id(w)}
  {
    hide IsSuperseded, Surviving, KeyOf, Ranked;
    FirstChain(r, x, y, w, ex, ey, ew);
    SecondChain(r, x, y, w, ex, ey, ew, [x, y, w]);
    assert ChainKeys(r, [x, y, w]) == {KeyOf(r, x), KeyOf(r, y)};
    assert Take([y, x], 1) == [y] && Take([w, y], 1) == [w];
  }

  lemma NoUnknowns(r: Rules, bundles: seq<LoadedBundle>)
    requires forall b :: b in bundles ==> !b.front.kind.Unknown?
    ensures UnknownsReadable(r, bundles) && UnknownRefs(r, bundles) == {}
  {
    hide TrustOf, LastWith, Conflicts;
  }

  lemma CrossedFirstPlan(r: Rules, x: LoadedBundle, y: LoadedBundle, w: LoadedBundle, ex: Event, ey: Event, ew: Event)
    requires CrossedChains(r, x, y, w, ex, ey, ew)
    ensures UnknownsReadable(r, [x, y, w]) && Plan(r, [x, y, w], 1, NoHorizon) == [Id(x)]
  {
    hide IsSuperseded, TrustOf, Surviving, KeyOf, UnknownRefs, UnknownsReadable, WithinK, SupersededIds, LastWith, Plan;
    var all := [x, y, w];
    CrossedFacts(r, x, y, w, ex, ey, ew);
    CrossedFirstSets(r, x, y, w, ex, ey, ew);
    NoUnknowns(r, all);
    LookupIs(all, x);
    LookupIs(all, y);
    LookupIs(all, w);
    PlanIsOne(r, all, Id(x));
  }

  lemma CrossedSecondPlan(r: Rules, x: LoadedBundle, y: LoadedBundle, w: LoadedBundle, ex: Event, ey: Event, ew: Event)
    requires CrossedChains(r, x, y, w, ex, ey, ew)
    ensures UnknownsReadable(r, [y, w]) && Plan(r, [y, w], 1, NoHorizon) == [Id(y)]
  {
    hide IsSuperseded, TrustOf, Surviving, KeyOf, Ranked, Conflicts, References;
    var all := [y, w];
    CrossedFacts(r, x, y, w, ex, ey, ew);
    SecondChain(r, x, y, w, ex, ey, ew, all);
    LookupIs(all, y);
    LookupIs(all, w);
    assert ChainKeys(r, all) == {KeyOf(r, y)};
    assert Take([w, y], 1) == [w];
    assert WithinK(r, all, 1) == {Id(w)};
    assert SupersededIds(r, all) == {Id(y), Id(w)};
    assert UnknownRefs(r, all) == {};
    PlanIsOne(r, all, Id(y));
  }

  /**
   * Across keys the rest is not all a rerun removes: y was kept only because x's chain counted it, so once
   * x is gone a rerun under the very same settings trims y as well.
   */
  lemma CrossedChainsTrimMore(r: Rules, x: LoadedBundle, y: LoadedBundle, w: LoadedBundle, ex: Event, ey: Event, ew: Event)
    requires CrossedChains(r, x, y, w, ex, ey, ew)
    ensures !ChainKept(r, [x, y, w], {Id(x)}, KeyOf(r, x))
    ensures UnknownsReadable(r, [x, y, w]) && Plan(r, [x, y, w], 1, NoHorizon) == [Id(x)]
    ensures
      var left := WithoutAll([x, y, w], [Id(x)]);
      UnknownsReadable(r, left) && Plan(r, left, 1, NoHorizon) == [Id(y)]
  {
    hide IsSuperseded, TrustOf, Surviving, KeyOf, Plan, UnknownsReadable, VerdictOf;
    CrossedFacts(r, x, y, w, ex, ey, ew);
    CrossedFirstPlan(r, x, y, w, ex, ey, ew);
    CrossedSecondPlan(r, x, y, w, ex, ey, ew);
    WithoutFirst(x, y, w);
    assert ex in Surviving(x.events);
    assert Contributes(r, KeyOf(r, x), x, Id(y));
    assert forall id :: !Contributes(r, KeyOf(r, x), y, id) && !Contributes(r, KeyOf(r, x), w, id);
  }

  lemma WithoutFirst(x: LoadedBundle, y: LoadedBundle, w: LoadedBundle)
    requires Id(x) != Id(y) && Id(x) != Id(w) && Id(y) != Id(w)
    ensures WithoutAll([x, y, w], [Id(x)]) == [y, w]
  {
    var ids := [Id(x)];
    assert ids[..0] == [];
    assert [x, y, w][..2] == [x, y] && [x, y][..1] == [x] && [x][..0] == [];
    assert Without([x], Id(x)) == [];
    assert Without([x, y], Id(x)) == [] + [y] == [y];
    assert Without([x, y, w], Id(x)) == [y] + [w] == [y, w];
  }

  /** `supersessionKey` under a hash that separates texts: the key of the multiset of normalised anchors. */
  ghost predicate SeparatesAnchors(r: Rules) {
    forall a, b :: r.chainKey(a) == r.chainKey(b) <==> multiset(Map(Normalize, a)) == multiset(Map(Normalize, b))
  }

  /**
   * Such records exist for any two bundles whose anchors differ: the first superseded by a copy of the
   * second, that copy by another, and that by a record elsewhere.
   */
  lemma CrossedChainsHappen(r: Rules, p: LoadedBundle, q: LoadedBundle) returns (
    x: LoadedBundle, y: LoadedBundle, w: LoadedBundle, ex: Event, ey: Event, ew: Event)
    requires SeparatesAnchors(r)
    requires multiset(Map(Normalize, NormalizedAnchors(p.front.anchors))) != multiset(Map(Normalize, NormalizedAnchors(q.front.anchors)))
    requires forall b :: b == p || b == q ==> !b.front.kind.Unknown? && !b.front.originClass.User?
    ensures x.front == p.front && y.front == q.front && w.front == q.front
    ensures CrossedChains(r, x, y, w, ex, ey, ew)
  {
    ex := Event(Superseded("y"), "", "", 1, None);
    ey := Event(Superseded("w"), "", "", 2, None);
    ew := Event(Superseded("v"), "", "", 3, None);
    x, y, w := Renamed(p, "x", ex), Renamed(q, "y", ey), Renamed(q, "w", ew);
    hide KeyOf, SeparatesAnchors, Map, NormalizedAnchors, OnceSuperseded, Renamed;
    DifferentKeys(r, p, q);
    RenamedOnce(r, p, "x", ex);
    RenamedOnce(r, q, "y", ey);
    RenamedOnce(r, q, "w", ew);
    FourNames();
  }

  lemma FourNames()
    ensures "x" != "y" && "y" != "w" && "x" != "w" && "v" != "x" && "v" != "y" && "v" != "w"
  {
    assert "x"[0] != "y"[0] && "y"[0] != "w"[0] && "x"[0] != "w"[0];
    assert "v"[0] != "x"[0] && "v"[0] != "y"[0] && "v"[0] != "w"[0];
  }

  lemma DifferentKeys(r: Rules, p: LoadedBundle, q: LoadedBundle)
    requires SeparatesAnchors(r)
    requires multiset(Map(Normalize, NormalizedAnchors(p.front.anchors))) != multiset(Map(Normalize, NormalizedAnchors(q.front.anchors)))
    ensures KeyOf(r, p) != KeyOf(r, q)
  {
    hide Map, Normalize, NormalizedAnchors;
  }

  lemma RenamedOnce(r: Rules, b: LoadedBundle, id: string, e: Event)
    requires !b.front.kind.Unknown? && !b.front.originClass.User? && e.kind.Superseded? && e.ordinal >= 1
    ensures
      var n := Renamed(b, id, e);
      n.front == b.front && Id(n) == id && OnceSuperseded(n, e) && KeyOf(r, n) == KeyOf(r, b)
  {
    hide NormalizedAnchors;
  }

  function Renamed(b: LoadedBundle, id: string, e: Event): LoadedBundle {
    b.(manifest := b.manifest.(id := id, createdAtOrdinal := 0), events := [e])
  }
}
