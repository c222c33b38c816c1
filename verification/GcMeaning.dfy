/** Which records a collection plans to remove, said without the machinery of the run. */
module GcMeaning {
  import opened Prelude
  import opened StableSort
  import opened TextOrder
  import opened TextSets
  import opened Outcomes
  import opened BundleModel
  import opened BundleLoad
  import opened Gc
  import opened GcResume

  // ----- what protects a record -----

  /** An open question: an unknown neither deprecated nor superseded. */
  predicate OpenQuestion(b: LoadedBundle) {
    b.front.kind == Unknown && TrustOf(b).status in {Active, Candidate}
  }

  /** The bundle names the record: in the conflict list of its discriminant or as the target of a relation. */
  predicate Names(r: Rules, b: LoadedBundle, id: string) {
    || (var o := r.conflicts(b.manifest.identityCore.discriminantKey); o.Some? && id in o.value)
    || exists x :: x in b.relations && x.targetId == id
  }

  /** The bundle is the last of its id. */
  predicate LastOfId(bundles: seq<LoadedBundle>, b: LoadedBundle) {
    exists i :: 0 <= i < |bundles| && bundles[i] == b && forall j :: i < j < |bundles| ==> bundles[j].manifest.id != b.manifest.id
  }

  lemma {:induction false} LastIndex(bundles: seq<LoadedBundle>, id: string) returns (i: nat)
    requires LastWith(bundles, id).Some?
    ensures i < |bundles| && Some(bundles[i]) == LastWith(bundles, id)
    ensures forall j :: i < j < |bundles| ==> Id(bundles[j]) != id
  {
    i := |bundles| - 1;
    if Id(bundles[i]) != id {
      i := LastIndex(bundles[..|bundles| - 1], id);
      assert forall j :: i < j < |bundles| - 1 ==> bundles[j] == bundles[..|bundles| - 1][j];
    }
  }

  lemma LastWithIs(bundles: seq<LoadedBundle>, b: LoadedBundle)
    ensures Effective(bundles, b) <==> LastOfId(bundles, b)
  {
    hide LastWith;
    if b in bundles {
      var i := LastIndex(bundles, Id(b));
      if LastOfId(bundles, b) {
        var l :| 0 <= l < |bundles| && bundles[l] == b && forall j :: l < j < |bundles| ==> Id(bundles[j]) != Id(b);
        assert l == i;
      }
    }
  }

  lemma OpenQuestionIs(b: LoadedBundle)
    ensures OpenQuestion(b) <==> LiveUnknown(b)
  {
    hide TrustOf;
  }

  /** The ids that open questions protect are exactly those that an effective open question names. */
  lemma UnknownRefsAre(r: Rules, bundles: seq<LoadedBundle>, id: string)
    requires UnknownsReadable(r, bundles)
    ensures id in UnknownRefs(r, bundles) <==> exists b :: LastOfId(bundles, b) && OpenQuestion(b) && Names(r, b, id)
  {
    hide TrustOf, LastOfId, OpenQuestion, LiveUnknown, Effective;
    forall b ensures (LastOfId(bundles, b) <==> Effective(bundles, b)) && (OpenQuestion(b) <==> LiveUnknown(b)) {
      LastWithIs(bundles, b);
      OpenQuestionIs(b);
    }
    assert forall b :: Effective(bundles, b) ==> b in bundles by { EffectiveIn(bundles); }
    forall b | Effective(bundles, b) && LiveUnknown(b) ensures id in References(r, b) <==> Names(r, b, id) {}
  }

  lemma EffectiveIn(bundles: seq<LoadedBundle>)
    ensures forall b :: Effective(bundles, b) ==> b in bundles
  {
  }

  /** What an open question names is never planned, whatever else holds of it. */
  lemma NamedIsKept(r: Rules, bundles: seq<LoadedBundle>, k: nat, h: Horizon, b: LoadedBundle, id: string)
    requires UnknownsReadable(r, bundles) && LastOfId(bundles, b) && OpenQuestion(b) && Names(r, b, id)
    ensures id !in Plan(r, bundles, k, h)
  {
    hide UnknownRefs, SupersededIds, WithinK, TrustOf, OpenQuestion, Names, LastOfId, LastWith;
    UnknownRefsAre(r, bundles, id);
    assert !VerdictOf(r, bundles, k, h, id).Trimmed?;
  }

  // ----- chains and ranks -----

  /** The record was superseded, or superseded another, in the history of a bundle with this supersession key. */
  predicate Links(r: Rules, key: string, x: LoadedBundle, id: string) {
    && x.front.kind != Unknown
    && r.chainKey(Map((p: AnchorPair) => p.normalized, x.front.anchors)) == key
    && exists e :: e in Surviving(x.events) && e.kind.Superseded? && e.ordinal >= 1
         && id in {x.manifest.id, e.kind.byRecordId}
  }

  /** A superseded record of the chain. */
  predicate Member(r: Rules, bundles: seq<LoadedBundle>, key: string, b: LoadedBundle) {
    && b in bundles && TrustOf(b).status == SupersededStatus
    && exists x :: x in bundles && Links(r, key, x, b.manifest.id)
  }

  lemma LinksIs(r: Rules, key: string, x: LoadedBundle, id: string)
    ensures Links(r, key, x, id) <==> Contributes(r, key, x, id)
  {
    hide Surviving;
    assert InChain(r, x, key) <==>
           x.front.kind != Unknown && r.chainKey(Map((p: AnchorPair) => p.normalized, x.front.anchors)) == key;
  }

  lemma MemberIs(r: Rules, bundles: seq<LoadedBundle>, key: string, b: LoadedBundle)
    requires DistinctIds(bundles)
    ensures Member(r, bundles, key, b) <==> b in Ranked(r, bundles, key)
  {
    hide Links, Contributes, TrustOf, Ranked;
    RankedShape(r, bundles, key);
    forall x ensures Links(r, key, x, b.manifest.id) <==> Contributes(r, key, x, Id(b)) { LinksIs(r, key, x, Id(b)); }
  }

  /** The ordinal of the last surviving supersession, or of the creation. */
  predicate LastSuperseded(b: LoadedBundle, n: int) {
    && n >= b.manifest.createdAtOrdinal
    && (forall e :: e in Surviving(b.events) && e.kind.Superseded? ==> e.ordinal <= n)
    && (n == b.manifest.createdAtOrdinal || exists e :: e in Surviving(b.events) && e.kind.Superseded? && e.ordinal == n)
  }

  lemma {:induction false} MaxIsReached(events: seq<Event>, start: int)
    ensures var m := MaxOrdinal(events, start); m == start || exists e :: e in events && e.ordinal == m
  {
    if events != [] {
      MaxIsReached(events[1..], start);
      assert forall e :: e in events[1..] ==> e in events;
      assert events[0] in events;
    }
  }

  lemma LatestIs(b: LoadedBundle, n: int)
    ensures LastSuperseded(b, n) <==> n == LatestSupersession(b)
  {
    hide Surviving;
    var s := Filter(Surviving(b.events), (e: Event) => e.kind.Superseded?);
    MaxIsReached(s, b.manifest.createdAtOrdinal);
    assert forall e :: e in s <==> e in Surviving(b.events) && e.kind.Superseded?;
  }

  /** Superseded later; if at once, created later; if at once, of the greater id. */
  ghost predicate Ahead(a: LoadedBundle, b: LoadedBundle) {
    exists m, n :: LastSuperseded(a, m) && LastSuperseded(b, n)
      && (m > n || (m == n && (a.manifest.createdAtOrdinal > b.manifest.createdAtOrdinal
            || (a.manifest.createdAtOrdinal == b.manifest.createdAtOrdinal && TextLt(b.manifest.id, a.manifest.id)))))
  }

  lemma AheadIs(a: LoadedBundle, b: LoadedBundle)
    requires Id(a) != Id(b)
    ensures Ahead(a, b) <==> RANK(a, b)
  {
    hide LastSuperseded, LatestSupersession;
    forall n ensures (LastSuperseded(a, n) <==> n == LatestSupersession(a)) && (LastSuperseded(b, n) <==> n == LatestSupersession(b)) {
      LatestIs(a, n);
      LatestIs(b, n);
    }
    assert LastSuperseded(a, LatestSupersession(a)) && LastSuperseded(b, LatestSupersession(b));
  }

  lemma NotAheadOfItself(a: LoadedBundle)
    ensures !Ahead(a, a)
  {
    hide LastSuperseded;
    forall n ensures LastSuperseded(a, n) <==> n == LatestSupersession(a) { LatestIs(a, n); }
  }

  /** The members of a chain ahead of a record. */
  ghost function AheadOf(r: Rules, bundles: seq<LoadedBundle>, key: string, b: LoadedBundle): set<LoadedBundle> {
    set x | x in bundles && Member(r, bundles, key, x) && Ahead(x, b)
  }

  lemma {:induction false} DistinctSize(s: seq<LoadedBundle>)
    requires Distinct(s)
    ensures |SetOf(s)| == |s|
  {
    if s == [] {
      assert SetOf(s) == {};
    } else {
      DistinctSize(s[1..]);
      assert s[0] !in s[1..];
      assert SetOf(s) == {s[0]} + SetOf(s[1..]);
    }
  }

  /** The rank of a member is the number of members ahead of it. */
  lemma RankIsCount(r: Rules, bundles: seq<LoadedBundle>, key: string, i: nat)
    requires DistinctIds(bundles) && i < |Ranked(r, bundles, key)|
    ensures |AheadOf(r, bundles, key, Ranked(r, bundles, key)[i])| == i
  {
    hide Ranked, Member, Ahead, Contributes, TrustOf;
    var ranked := Ranked(r, bundles, key);
    var b := ranked[i];
    RankedShape(r, bundles, key);
    forall x ensures Member(r, bundles, key, x) <==> x in ranked { MemberIs(r, bundles, key, x); }
    forall j | 0 <= j < |ranked| ensures Ahead(ranked[j], b) <==> j < i { AheadByIndex(ranked, j, i); }
    forall x ensures x in AheadOf(r, bundles, key, b) <==> x in SetOf(ranked[..i]) {
      if x in ranked {
        var j :| 0 <= j < |ranked| && ranked[j] == x;
        assert j < i ==> x == ranked[..i][j];
        if x in ranked[..i] {
          var l :| 0 <= l < i && ranked[..i][l] == x;
          assert ranked[l] == x && Ahead(ranked[l], b);
        }
        assert x in bundles;
      }
    }
    assert Distinct(ranked[..i]) by { DistinctBundles(ranked); }
    DistinctSize(ranked[..i]);
    assert AheadOf(r, bundles, key, b) == SetOf(ranked[..i]);
  }

  lemma AheadByIndex(ranked: seq<LoadedBundle>, j: nat, i: nat)
    requires DistinctIds(ranked) && Sorted(ranked, RANK) && i < |ranked| && j < |ranked|
    ensures Ahead(ranked[j], ranked[i]) <==> j < i
  {
    hide Ahead, RankLe;
    if i == j {
      NotAheadOfItself(ranked[i]);
    } else {
      AheadIs(ranked[j], ranked[i]);
      RankAntisymmetric(ranked);
      if i < j && RANK(ranked[j], ranked[i]) { assert false; }
    }
  }

  /** Fewer than `k` members of the chain are ahead of the record. */
  ghost predicate AmongFirst(r: Rules, bundles: seq<LoadedBundle>, k: nat, key: string, b: LoadedBundle) {
    Member(r, bundles, key, b) && |AheadOf(r, bundles, key, b)| < k
  }

  lemma InTake(s: seq<LoadedBundle>, k: nat, i: nat)
    requires Distinct(s) && i < |s|
    ensures s[i] in Take(s, k) <==> i < k
  {
    if i < k { assert Take(s, k)[i] == s[i]; }
    if s[i] in Take(s, k) {
      var j :| 0 <= j < |Take(s, k)| && Take(s, k)[j] == s[i];
      assert j == i;
    }
  }

  lemma AmongFirstIs(r: Rules, bundles: seq<LoadedBundle>, k: nat, key: string, b: LoadedBundle)
    requires DistinctIds(bundles)
    ensures AmongFirst(r, bundles, k, key, b) <==> b in Take(Ranked(r, bundles, key), k)
  {
    hide Ranked, Member, AheadOf, Contributes, IsSuperseded, Take;
    var ranked := Ranked(r, bundles, key);
    MemberIs(r, bundles, key, b);
    RankedShape(r, bundles, key);
    if b in ranked {
      var i :| 0 <= i < |ranked| && ranked[i] == b;
      RankIsCount(r, bundles, key, i);
      DistinctBundles(ranked);
      InTake(ranked, k, i);
    } else {
      TakeIsPart(ranked, k);
    }
  }

  lemma TakeIsPart(s: seq<LoadedBundle>, k: nat)
    ensures forall x :: x in Take(s, k) ==> x in s
  {
  }

  // ----- the plan -----

  /** The record is a superseded member of some chain. */
  ghost predicate Superseded(r: Rules, bundles: seq<LoadedBundle>, b: LoadedBundle) { exists key :: Member(r, bundles, key, b) }

  /** The record is among the first `k` of some chain. */
  ghost predicate Retained(r: Rules, bundles: seq<LoadedBundle>, k: nat, b: LoadedBundle) {
    exists key :: AmongFirst(r, bundles, k, key, b)
  }

  /** Some open question names the record. */
  ghost predicate Questioned(r: Rules, bundles: seq<LoadedBundle>, id: string) {
    exists b :: b in bundles && OpenQuestion(b) && Names(r, b, id)
  }

  /** The validity of the record reaches beyond the deepest gate. */
  predicate StillValid(b: LoadedBundle, h: Horizon) {
    match h
    case NoHorizon => false
    case Ordinal(n) =>
      match TrustOf(b).closedAtOrdinal
      case None => true
      case Some(closed) => closed > n
  }

  lemma CandidateIs(r: Rules, bundles: seq<LoadedBundle>, b: LoadedBundle)
    requires DistinctIds(bundles) && b in bundles
    ensures Superseded(r, bundles, b) <==> Id(b) in SupersededIds(r, bundles) && IsSuperseded(b)
  {
    hide Ranked, Member, TrustOf, Contributes;
    forall key ensures Member(r, bundles, key, b) <==> b in Ranked(r, bundles, key) { MemberIs(r, bundles, key, b); }
    if Superseded(r, bundles, b) {
      var key :| Member(r, bundles, key, b);
      RankedShape(r, bundles, key);
      if key !in ChainKeys(r, bundles) { NoChain(r, bundles, key); }
    }
    if Id(b) in SupersededIds(r, bundles) {
      var key, x :| key in ChainKeys(r, bundles) && x in Ranked(r, bundles, key) && Id(x) == Id(b);
      RankedShape(r, bundles, key);
      SameIdSame(bundles, x, b);
    }
  }

  lemma RetainedIs(r: Rules, bundles: seq<LoadedBundle>, k: nat, b: LoadedBundle)
    requires DistinctIds(bundles) && b in bundles
    ensures Retained(r, bundles, k, b) <==> Id(b) in WithinK(r, bundles, k)
  {
    hide Ranked, AmongFirst, TrustOf, Contributes;
    forall key ensures AmongFirst(r, bundles, k, key, b) <==> b in Take(Ranked(r, bundles, key), k) {
      AmongFirstIs(r, bundles, k, key, b);
    }
    if Retained(r, bundles, k, b) {
      var key :| AmongFirst(r, bundles, k, key, b);
      if key !in ChainKeys(r, bundles) { NoChain(r, bundles, key); }
    }
    if Id(b) in WithinK(r, bundles, k) {
      var key, x :| key in ChainKeys(r, bundles) && x in Take(Ranked(r, bundles, key), k) && Id(x) == Id(b);
      RankedShape(r, bundles, key);
      assert x in Ranked(r, bundles, key);
      SameIdSame(bundles, x, b);
    }
  }

  lemma QuestionedIs(r: Rules, bundles: seq<LoadedBundle>, id: string)
    requires DistinctIds(bundles) && UnknownsReadable(r, bundles)
    ensures Questioned(r, bundles, id) <==> id in UnknownRefs(r, bundles)
  {
    hide OpenQuestion, Names, LastOfId, Effective, UnknownRefs;
    UnknownRefsAre(r, bundles, id);
    EffectiveIn(bundles);
    forall b ensures b in bundles <==> LastOfId(bundles, b) {
      LastWithIs(bundles, b);
      if b in bundles { LookupIs(bundles, b); }
    }
  }

  /** The verdict on a record, reason by reason. */
  ghost function VerdictBy(superseded: bool, retained: bool, questioned: bool, user: bool, valid: bool): Verdict {
    if !superseded then NotACandidate
    else if retained then KeptWithinK
    else if questioned || user || valid then KeptExcluded(questioned, user, valid)
    else Trimmed
  }

  /**
   * A record is trimmed exactly when it is a superseded member of some chain, among the first K of none, not
   * a user's, named by no open question, and not valid beyond the deepest gate; otherwise it is kept for
   * each of these reasons that applies.
   */
  lemma VerdictIs(r: Rules, bundles: seq<LoadedBundle>, k: nat, h: Horizon, b: LoadedBundle)
    requires DistinctIds(bundles) && UnknownsReadable(r, bundles) && b in bundles
    ensures VerdictOf(r, bundles, k, h, b.manifest.id) == VerdictBy(
      Superseded(r, bundles, b), Retained(r, bundles, k, b), Questioned(r, bundles, b.manifest.id),
      b.front.originClass == User, StillValid(b, h))
  {
    hide Superseded, Retained, Questioned, SupersededIds, WithinK, UnknownRefs, TrustOf, UnknownsReadable, IsSuperseded, LastWith;
    LookupIs(bundles, b);
    CandidateIs(r, bundles, b);
    RetainedIs(r, bundles, k, b);
    QuestionedIs(r, bundles, Id(b));
    assert StillValid(b, h) == IntersectsHorizon(TrustOf(b).closedAtOrdinal, h);
  }

  /** So this is the plan. */
  lemma PlanIff(r: Rules, bundles: seq<LoadedBundle>, k: nat, h: Horizon, b: LoadedBundle)
    requires DistinctIds(bundles) && UnknownsReadable(r, bundles) && b in bundles
    ensures b.manifest.id in Plan(r, bundles, k, h) <==>
            && Superseded(r, bundles, b) && !Retained(r, bundles, k, b)
            && b.front.originClass != User && !Questioned(r, bundles, b.manifest.id) && !StillValid(b, h)
  {
    hide Superseded, Retained, Questioned, SupersededIds, UnknownsReadable, VerdictOf, StillValid, IsSuperseded;
    CandidateIs(r, bundles, b);
    VerdictIs(r, bundles, k, h, b);
  }

  /** And nothing else is planned, nothing twice, and everything in the order of the ids. */
  lemma PlanInOrder(r: Rules, bundles: seq<LoadedBundle>, k: nat, h: Horizon)
    requires UnknownsReadable(r, bundles)
    ensures
      var plan := Plan(r, bundles, k, h);
      && (forall id :: id in plan ==> exists b :: b in bundles && b.manifest.id == id)
      && (forall i, j :: 0 <= i < j < |plan| ==> TextLt(plan[i], plan[j]))
  {
    hide SupersededIds, WithinK, UnknownRefs, TrustOf, UnknownsReadable, IsSuperseded, VerdictOf;
    var ids := SortedSet(SupersededIds(r, bundles));
    FilterSorted(ids, TEXT_ORDER, IsTrimmed(r, bundles, k, h));
    FilterDistinct(ids, IsTrimmed(r, bundles, k, h));
    var plan := Plan(r, bundles, k, h);
    assert forall i, j :: 0 <= i < j < |plan| ==> TEXT_ORDER(plan[i], plan[j]);
    forall id | id in plan ensures exists b :: b in bundles && b.manifest.id == id { PlannedExists(r, bundles, k, h, id); }
  }

  lemma PlannedExists(r: Rules, bundles: seq<LoadedBundle>, k: nat, h: Horizon, id: string)
    requires UnknownsReadable(r, bundles) && id in Plan(r, bundles, k, h)
    ensures exists b :: b in bundles && b.manifest.id == id
  {
    hide TrustOf, SupersededIds, WithinK, UnknownRefs;
    assert LastWith(bundles, id).Some?;
  }

  // ----- the counters -----

  lemma {:induction false} TallyCounts(vs: seq<Verdict>)
    ensures
      var t := TallyAll(vs);
      && t.withinK == |Filter(vs, (v: Verdict) => v.KeptWithinK?)|
      && t.unknownRef == |Filter(vs, (v: Verdict) => v.KeptExcluded? && v.unknownRef)|
      && t.userOrigin == |Filter(vs, (v: Verdict) => v.KeptExcluded? && v.userOrigin)|
      && t.horizon == |Filter(vs, (v: Verdict) => v.KeptExcluded? && v.horizon)|
  {
    if vs != [] {
      var front, last := vs[..|vs| - 1], vs[|vs| - 1];
      assert vs == front + [last] && [last][1..] == [];
      TallyCounts(front);
      FilterAppend(front, [last], (v: Verdict) => v.KeptWithinK?);
      FilterAppend(front, [last], (v: Verdict) => v.KeptExcluded? && v.unknownRef);
      FilterAppend(front, [last], (v: Verdict) => v.KeptExcluded? && v.userOrigin);
      FilterAppend(front, [last], (v: Verdict) => v.KeptExcluded? && v.horizon);
    }
  }
}
