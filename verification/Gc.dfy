/** Garbage collection of superseded bundles: what may be trimmed, what a chain keeps, and how a run resumes. */
module Gc {
  import opened Prelude
  import opened StableSort
  import opened TextOrder
  import opened TextSets
  import opened Anchors
  import opened Outcomes
  import opened BundleModel
  import opened BundleLoad

  const GC_SUPERSEDED_RETAIN_K: nat := 3

  datatype Horizon = NoHorizon | Ordinal(deepestGateOrdinal: int)

  /** The supersession key of an anchor list, and the conflict ids an unknown's discriminant names. */
  datatype Rules = Rules(chainKey: seq<Anchor> -> string, conflicts: string -> Option<seq<string>>)

  function Id(b: LoadedBundle): string { b.manifest.id }

  function NormalizedAnchors(anchors: seq<AnchorPair>): seq<Anchor> { Map((p: AnchorPair) => p.normalized, anchors) }

  function KeyOf(r: Rules, b: LoadedBundle): string { r.chainKey(NormalizedAnchors(b.front.anchors)) }

  predicate IsSuperseded(b: LoadedBundle) { TrustOf(b).status.SupersededStatus? }

  // ----- chains -----

  function MaxOrdinal(events: seq<Event>, start: int): (m: int)
    ensures m >= start && forall e :: e in events ==> m >= e.ordinal
  {
    if events == [] then start
    else
      var rest := MaxOrdinal(events[1..], start);
      assert forall e :: e in events <==> e == events[0] || e in events[1..];
      Max(rest, events[0].ordinal)
  }

  function LatestBuildOrdinal(bundles: seq<LoadedBundle>): (m: int)
    ensures m >= 1 && forall b :: b in bundles ==> m >= b.manifest.createdAtOrdinal
    ensures forall b, e :: b in bundles && e in b.events ==> m >= e.ordinal
  {
    if bundles == [] then 1
    else
      var rest := LatestBuildOrdinal(bundles[1..]);
      assert forall b :: b in bundles <==> b == bundles[0] || b in bundles[1..];
      Max(rest, MaxOrdinal(bundles[0].events, bundles[0].manifest.createdAtOrdinal))
  }

  /** The window of the lineage fold when it is as wide as the history: it opens at the first build. */
  function WindowOpen(asOf: int, windowBuilds: int): int { Max(1, asOf - windowBuilds + 1) }

  /** A surviving supersession the lineage fold counts. */
  predicate Counts(e: Event, asOf: int) {
    e.kind.Superseded? && WindowOpen(asOf, asOf) <= e.ordinal <= asOf
  }

  predicate InChain(r: Rules, b: LoadedBundle, key: string) { !b.front.kind.Unknown? && KeyOf(r, b) == key }

  /** `chainRecordIds`: every record superseded under this key, and every record that superseded one. */
  function ChainIds(r: Rules, bundles: seq<LoadedBundle>, key: string, asOf: int): set<string> {
    (set b, e | b in bundles && InChain(r, b, key) && e in Surviving(b.events) && Counts(e, asOf) :: Id(b))
    + (set b, e | b in bundles && InChain(r, b, key) && e in Surviving(b.events) && Counts(e, asOf) :: e.kind.byRecordId)
  }

  /** The last bundle of that id, as a `Map` built from the list keeps it. */
  function LastWith(bundles: seq<LoadedBundle>, id: string): (o: Option<LoadedBundle>)
    ensures o.Some? ==> o.value in bundles && Id(o.value) == id
    ensures o.None? <==> forall b :: b in bundles ==> Id(b) != id
  {
    if bundles == [] then None
    else
      var last := bundles[|bundles| - 1];
      assert forall b :: b in bundles <==> b in bundles[..|bundles| - 1] || b == last;
      if Id(last) == id then Some(last) else LastWith(bundles[..|bundles| - 1], id)
  }

  predicate SnapshotLe(a: LoadedBundle, b: LoadedBundle) {
    if a.manifest.createdAtOrdinal != b.manifest.createdAtOrdinal then
      a.manifest.createdAtOrdinal <= b.manifest.createdAtOrdinal
    else TextLe(Id(a), Id(b))
  }

  /** `scanCanonicalBundles`: oldest first. */
  function Snapshots(bundles: seq<LoadedBundle>): seq<LoadedBundle> {
    Sort(bundles, (a: LoadedBundle, b: LoadedBundle) => SnapshotLe(a, b))
  }

  function LatestSupersession(b: LoadedBundle): int {
    MaxOrdinal(Filter(Surviving(b.events), (e: Event) => e.kind.Superseded?), b.manifest.createdAtOrdinal)
  }

  /** Most recently superseded first, then most recently created, then the greater id. */
  predicate RankLe(a: LoadedBundle, b: LoadedBundle) {
    if LatestSupersession(a) != LatestSupersession(b) then LatestSupersession(a) >= LatestSupersession(b)
    else if a.manifest.createdAtOrdinal != b.manifest.createdAtOrdinal then
      a.manifest.createdAtOrdinal >= b.manifest.createdAtOrdinal
    else TextLe(Id(b), Id(a))
  }

  const RANK: (LoadedBundle, LoadedBundle) -> bool := (a: LoadedBundle, b: LoadedBundle) => RankLe(a, b)

  /** The superseded snapshots behind a list of ids. */
  function SupersededOf(snapshots: seq<LoadedBundle>, ids: seq<string>): seq<LoadedBundle> {
    if ids == [] then []
    else
      var o := LastWith(snapshots, ids[0]);
      (if o.Some? && IsSuperseded(o.value) then [o.value] else []) + SupersededOf(snapshots, ids[1..])
  }

  /** The superseded members of a chain, the most recently superseded first. */
  function Ranked(r: Rules, bundles: seq<LoadedBundle>, key: string): seq<LoadedBundle> {
    var snapshots := Snapshots(bundles);
    Sort(SupersededOf(snapshots, SortedSet(ChainIds(r, snapshots, key, LatestBuildOrdinal(snapshots)))), RANK)
  }

  function Ids(bundles: seq<LoadedBundle>): set<string> { set b | b in bundles :: Id(b) }

  function ChainKeys(r: Rules, bundles: seq<LoadedBundle>): set<string> {
    set b | b in bundles && !b.front.kind.Unknown? :: KeyOf(r, b)
  }

  function SupersededIds(r: Rules, bundles: seq<LoadedBundle>): set<string> {
    set key, b | key in ChainKeys(r, bundles) && b in Ranked(r, bundles, key) :: Id(b)
  }

  function WithinK(r: Rules, bundles: seq<LoadedBundle>, k: nat): set<string> {
    set key, b | key in ChainKeys(r, bundles) && b in Take(Ranked(r, bundles, key), k) :: Id(b)
  }

  // ----- exclusions -----

  predicate LiveUnknown(b: LoadedBundle) {
    b.front.kind.Unknown? && !TrustOf(b).status.DeprecatedStatus? && !TrustOf(b).status.SupersededStatus?
  }

  function Conflicts(r: Rules, b: LoadedBundle): Option<seq<string>> { r.conflicts(b.manifest.identityCore.discriminantKey) }

  function References(r: Rules, b: LoadedBundle): set<string>
    requires Conflicts(r, b).Some?
  {
    SetOf(Conflicts(r, b).value) + set x | x in b.relations :: x.targetId
  }

  /** The bundle a map keyed by record id holds: the last one of its id. */
  predicate Effective(bundles: seq<LoadedBundle>, b: LoadedBundle) {
    b in bundles && LastWith(bundles, Id(b)) == Some(b)
  }

  /** Every live unknown has a readable discriminant; otherwise the whole run is refused. */
  predicate UnknownsReadable(r: Rules, bundles: seq<LoadedBundle>) {
    forall b :: b in bundles && Effective(bundles, b) && LiveUnknown(b) ==> Conflicts(r, b).Some?
  }

  function UnknownRefs(r: Rules, bundles: seq<LoadedBundle>): set<string>
    requires UnknownsReadable(r, bundles)
  {
    set b, x | b in bundles && Effective(bundles, b) && LiveUnknown(b) && x in References(r, b) :: x
  }

  /** The half-open validity window reaches beyond the deepest gate. */
  predicate IntersectsHorizon(closedAt: Option<int>, h: Horizon) {
    h.Ordinal? && (closedAt == None || closedAt.value > h.deepestGateOrdinal)
  }

  // ----- the verdict on one candidate -----

  datatype Verdict = NotACandidate | KeptWithinK | KeptExcluded(unknownRef: bool, userOrigin: bool, horizon: bool) | Trimmed

  function VerdictOf(r: Rules, loaded: seq<LoadedBundle>, k: nat, h: Horizon, id: string): Verdict
    requires UnknownsReadable(r, loaded)
  {
    match LastWith(loaded, id)
    case None => NotACandidate
    case Some(b) =>
      if id !in SupersededIds(r, loaded) || !IsSuperseded(b) then NotACandidate
      else if id in WithinK(r, loaded, k) then KeptWithinK
      else
        var unknownRef := id in UnknownRefs(r, loaded);
        var user := b.front.originClass.User?;
        var horizon := IntersectsHorizon(TrustOf(b).closedAtOrdinal, h);
        if unknownRef || user || horizon then KeptExcluded(unknownRef, user, horizon) else Trimmed
  }

  function IsTrimmed(r: Rules, loaded: seq<LoadedBundle>, k: nat, h: Horizon): string -> bool
    requires UnknownsReadable(r, loaded)
  {
    (id: string) => VerdictOf(r, loaded, k, h, id).Trimmed?
  }

  /** What a run plans to remove, in order. */
  function Plan(r: Rules, loaded: seq<LoadedBundle>, k: nat, h: Horizon): seq<string>
    requires UnknownsReadable(r, loaded)
  {
    Filter(SortedSet(SupersededIds(r, loaded)), IsTrimmed(r, loaded, k, h))
  }

  // ----- as the code runs it -----

  datatype Skipped = Skipped(unknownRef: nat, withinK: nat, userOrigin: nat, horizon: nat)

  datatype Summary = Summary(trimmed: seq<string>, skipped: Skipped)

  function Tally(s: Skipped, v: Verdict): Skipped {
    match v
    case KeptWithinK => s.(withinK := s.withinK + 1)
    case KeptExcluded(unknownRef, user, horizon) =>
      Skipped(s.unknownRef + (if unknownRef then 1 else 0), s.withinK,
              s.userOrigin + (if user then 1 else 0), s.horizon + (if horizon then 1 else 0))
    case _ => s
  }

  function TallyAll(vs: seq<Verdict>): Skipped {
    if vs == [] then Skipped(0, 0, 0, 0) else Tally(TallyAll(vs[..|vs| - 1]), vs[|vs| - 1])
  }

  function VerdictsOf(r: Rules, loaded: seq<LoadedBundle>, k: nat, h: Horizon, ids: seq<string>): seq<Verdict>
    requires UnknownsReadable(r, loaded)
  {
    Map((id: string) => if UnknownsReadable(r, loaded) then VerdictOf(r, loaded, k, h, id) else NotACandidate, ids)
  }

  function Tallied(r: Rules, loaded: seq<LoadedBundle>, k: nat, h: Horizon, ids: seq<string>): Skipped
    requires UnknownsReadable(r, loaded)
  {
    TallyAll(VerdictsOf(r, loaded, k, h, ids))
  }

  method BuildUnknownReferenceExclusion(r: Rules, bundles: seq<LoadedBundle>) returns (referenced: Option<set<string>>)
    ensures referenced.Some? <==> UnknownsReadable(r, bundles)
    ensures referenced.Some? ==> referenced.value == UnknownRefs(r, bundles)
  {
    hide LastWith, LiveUnknown, Conflicts;
    var refs: set<string> := {};
    for i := 0 to |bundles|
      invariant forall b :: b in bundles[..i] && Effective(bundles, b) && LiveUnknown(b) ==> Conflicts(r, b).Some?
      invariant forall x :: x in refs <==>
        exists b :: b in bundles[..i] && Effective(bundles, b) && LiveUnknown(b) && Conflicts(r, b).Some? && x in References(r, b)
    {
      var b := bundles[i];
      assert bundles[..i + 1] == bundles[..i] + [b];
      if !Effective(bundles, b) || !LiveUnknown(b) { continue; }
      if Conflicts(r, b) == None { return None; }
      refs := refs + References(r, b);
    }
    assert bundles[..|bundles|] == bundles;
    referenced := Some(refs);
  }

  method BuildWithinKExclusion(r: Rules, bundles: seq<LoadedBundle>, k: nat)
    returns (supersededIds: set<string>, withinK: set<string>)
    ensures supersededIds == SupersededIds(r, bundles) && withinK == WithinK(r, bundles, k)
  {
    hide Ranked, ChainKeys;
    supersededIds, withinK := {}, {};
    var pending := ChainKeys(r, bundles);
    ghost var done: set<string> := {};
    while pending != {}
      invariant done + pending == ChainKeys(r, bundles) && done !! pending
      invariant supersededIds == set key, b | key in done && b in Ranked(r, bundles, key) :: Id(b)
      invariant withinK == set key, b | key in done && b in Take(Ranked(r, bundles, key), k) :: Id(b)
      decreases pending
    {
      var key :| key in pending;
      pending := pending - {key};
      done := done + {key};
      var superseded := Ranked(r, bundles, key);
      supersededIds := supersededIds + Ids(superseded);
      withinK := withinK + Ids(Take(superseded, k));
    }
    assert done == ChainKeys(r, bundles);
  }

  /** The loop over the candidates in id order. */
  method SelectTrims(r: Rules, loaded: seq<LoadedBundle>, k: nat, h: Horizon, ids: seq<string>,
                     supersededIds: set<string>, withinK: set<string>, unknownRef: set<string>)
    returns (trim: seq<string>, skipped: Skipped)
    requires UnknownsReadable(r, loaded)
    requires supersededIds == SupersededIds(r, loaded) && withinK == WithinK(r, loaded, k)
    requires unknownRef == UnknownRefs(r, loaded) && forall id :: id in ids ==> id in supersededIds
    ensures trim == Filter(ids, IsTrimmed(r, loaded, k, h)) && skipped == Tallied(r, loaded, k, h, ids)
  {
    hide SupersededIds, WithinK, UnknownRefs, LastWith, IsSuperseded, TrustOf, IntersectsHorizon, Tallied, IsTrimmed;
    trim, skipped := [], Skipped(0, 0, 0, 0);
    NothingTallied(r, loaded, k, h);
    for i := 0 to |ids|
      invariant trim == Filter(ids[..i], IsTrimmed(r, loaded, k, h))
      invariant skipped == Tallied(r, loaded, k, h, ids[..i])
    {
      SelectStep(r, loaded, k, h, ids, i);
      var id := ids[i];
      assert id in supersededIds;
      var candidate := LastWith(loaded, id);
      if candidate == None || !IsSuperseded(candidate.value) { continue; }
      if id in withinK {
        skipped := skipped.(withinK := skipped.withinK + 1);
        continue;
      }
      var excluded := false;
      if id in unknownRef {
        skipped := skipped.(unknownRef := skipped.unknownRef + 1);
        excluded := true;
      }
      if candidate.value.front.originClass.User? {
        skipped := skipped.(userOrigin := skipped.userOrigin + 1);
        excluded := true;
      }
      if IntersectsHorizon(TrustOf(candidate.value).closedAtOrdinal, h) {
        skipped := skipped.(horizon := skipped.horizon + 1);
        excluded := true;
      }
      if !excluded { trim := trim + [id]; }
    }
    assert ids[..|ids|] == ids;
  }

  lemma NothingTallied(r: Rules, loaded: seq<LoadedBundle>, k: nat, h: Horizon)
    requires UnknownsReadable(r, loaded)
    ensures Tallied(r, loaded, k, h, []) == Skipped(0, 0, 0, 0)
  {
  }

  lemma SelectStep(r: Rules, loaded: seq<LoadedBundle>, k: nat, h: Horizon, ids: seq<string>, i: nat)
    requires UnknownsReadable(r, loaded) && i < |ids|
    ensures
      var v := VerdictOf(r, loaded, k, h, ids[i]);
      && Tallied(r, loaded, k, h, ids[..i + 1]) == Tally(Tallied(r, loaded, k, h, ids[..i]), v)
      && Filter(ids[..i + 1], IsTrimmed(r, loaded, k, h)) ==
         Filter(ids[..i], IsTrimmed(r, loaded, k, h)) + (if v.Trimmed? then [ids[i]] else [])
  {
    hide VerdictOf, UnknownsReadable;
    assert ids[..i + 1] == ids[..i] + [ids[i]];
    FilterAppend(ids[..i], [ids[i]], IsTrimmed(r, loaded, k, h));
    assert [ids[i]][1..] == [];
    var vs := VerdictsOf(r, loaded, k, h, ids[..i + 1]);
    assert vs[..i] == VerdictsOf(r, loaded, k, h, ids[..i]);
  }

  /** The list without its last bundle of this id. */
  function Without(bundles: seq<LoadedBundle>, id: string): seq<LoadedBundle> {
    if bundles == [] then []
    else if Id(bundles[|bundles| - 1]) == id then bundles[..|bundles| - 1]
    else Without(bundles[..|bundles| - 1], id) + [bundles[|bundles| - 1]]
  }

  function WithoutAll(bundles: seq<LoadedBundle>, ids: seq<string>): seq<LoadedBundle> {
    if ids == [] then bundles else Without(WithoutAll(bundles, ids[..|ids| - 1]), ids[|ids| - 1])
  }

  class BundleTree {
    const r: Rules
    /** The loadable bundles in enumeration order. */
    var bundles: seq<LoadedBundle>

    constructor (r: Rules, bundles: seq<LoadedBundle>)
      ensures this.r == r && this.bundles == bundles
    {
      this.r, this.bundles := r, bundles;
    }

    /**
     * `runKnowledgeGc`: the whole plan is made before the first removal; losing the writer's authority
     * before removal `lostAt` throws and leaves the removals made so far.
     */
    method RunKnowledgeGc(retainK: Option<int>, h: Horizon, lostAt: Option<nat>) returns (result: Result<Summary, ()>)
      modifies this`bundles
      ensures
        var k := retainK.GetOr(GC_SUPERSEDED_RETAIN_K);
        if k < 0 || (h.Ordinal? && h.deepestGateOrdinal < 0) || !UnknownsReadable(r, old(bundles)) then
          result == Err(()) && bundles == old(bundles)
        else
          var plan := Plan(r, old(bundles), k, h);
          var ids := SortedSet(SupersededIds(r, old(bundles)));
          if lostAt.Some? && lostAt.value < |plan| then
            result == Err(()) && bundles == WithoutAll(old(bundles), plan[..lostAt.value])
          else
            result == Ok(Summary(plan, Tallied(r, old(bundles), k, h, ids))) && bundles == WithoutAll(old(bundles), plan)
    {
      hide SupersededIds, WithinK, UnknownRefs, UnknownsReadable, Without, Tallied, IsTrimmed;
      var k := retainK.GetOr(GC_SUPERSEDED_RETAIN_K);
      if k < 0 { return Err(()); }
      if h.Ordinal? && h.deepestGateOrdinal < 0 { return Err(()); }
      var unknownRef := BuildUnknownReferenceExclusion(r, bundles);
      if unknownRef == None { return Err(()); }
      var supersededIds, withinK := BuildWithinKExclusion(r, bundles, k);
      var ids := SortedSet(supersededIds);
      var trim, skipped := SelectTrims(r, bundles, k, h, ids, supersededIds, withinK, unknownRef.value);
      for i := 0 to |trim|
        invariant bundles == WithoutAll(old(bundles), trim[..i])
        invariant lostAt.Some? ==> i <= lostAt.value
      {
        if lostAt == Some(i) { return Err(()); }
        assert trim[..i + 1][..i] == trim[..i];
        bundles := Without(bundles, trim[i]);
      }
      assert trim[..|trim|] == trim;
      result := Ok(Summary(trim, skipped));
    }
  }

  // ----- safety -----

  /**
   * Nothing is trimmed that a reader, a user or an open question still needs: a trimmed record is
   * superseded, not a user's, named by no live unknown, and closed at or before the gate horizon.
   */
  lemma TrimIsSafe(r: Rules, bundles: seq<LoadedBundle>, k: nat, h: Horizon, id: string)
    requires UnknownsReadable(r, bundles) && id in Plan(r, bundles, k, h)
    ensures
      var o := LastWith(bundles, id);
      && o.Some? && IsSuperseded(o.value) && !o.value.front.originClass.User?
      && (forall b :: b in bundles && Effective(bundles, b) && LiveUnknown(b) ==> id !in References(r, b))
      && (h.Ordinal? ==> TrustOf(o.value).closedAtOrdinal.Some? && TrustOf(o.value).closedAtOrdinal.value <= h.deepestGateOrdinal)
      && id !in WithinK(r, bundles, k)
  {
    hide TrustOf, SupersededIds, WithinK, References, LiveUnknown;
    assert VerdictOf(r, bundles, k, h, id).Trimmed?;
  }

  lemma {:induction false} NoIds(snapshots: seq<LoadedBundle>, ids: seq<string>)
    requires forall id :: id in ids ==> LastWith(snapshots, id) == None
    ensures SupersededOf(snapshots, ids) == []
  {
    if ids != [] {
      assert ids[0] in ids;
      NoIds(snapshots, ids[1..]);
    }
  }

  lemma NoChain(r: Rules, bundles: seq<LoadedBundle>, key: string)
    requires key !in ChainKeys(r, bundles)
    ensures Ranked(r, bundles, key) == []
  {
    hide TrustOf, KeyOf;
    var snapshots := Snapshots(bundles);
    forall b | b in snapshots ensures !InChain(r, b, key) { assert b in bundles; }
    var ids := ChainIds(r, snapshots, key, LatestBuildOrdinal(snapshots));
    assert ids == {};
    assert SortedSet(ids) == [];
  }

  /** Every chain keeps its min(K, n) most recently superseded members, n being all it has. */
  lemma ChainRetention(r: Rules, bundles: seq<LoadedBundle>, k: nat, h: Horizon, key: string)
    requires UnknownsReadable(r, bundles)
    ensures
      var ranked := Ranked(r, bundles, key);
      && |Take(ranked, k)| == Min(k, |ranked|)
      && Sorted(ranked, RANK)
      && (forall b :: b in Take(ranked, k) ==> Id(b) !in Plan(r, bundles, k, h))
  {
    hide TrustOf, SupersededIds;
    RankIsPreorder();
    var snapshots := Snapshots(bundles);
    SortSorted(SupersededOf(snapshots, SortedSet(ChainIds(r, snapshots, key, LatestBuildOrdinal(snapshots)))), RANK);
    var ranked := Ranked(r, bundles, key);
    if key !in ChainKeys(r, bundles) { NoChain(r, bundles, key); }
    forall b | b in Take(ranked, k) ensures Id(b) !in Plan(r, bundles, k, h) {
      assert Id(b) in WithinK(r, bundles, k);
      if Id(b) in Plan(r, bundles, k, h) { TrimIsSafe(r, bundles, k, h, Id(b)); }
    }
  }

  lemma RankIsPreorder()
    ensures TotalPreorder(RANK)
  {
    hide LatestSupersession;
    TextOrderLaws();
  }

  lemma {:induction false} TallyClassifies(vs: seq<Verdict>)
    ensures
      var candidates := |Filter(vs, (v: Verdict) => !v.NotACandidate?)|;
      var trimmed := |Filter(vs, (v: Verdict) => v.Trimmed?)|;
      var excluded := |Filter(vs, (v: Verdict) => v.KeptExcluded?)|;
      var t := TallyAll(vs);
      && candidates == trimmed + t.withinK + excluded
      && t.unknownRef <= |Filter(vs, (v: Verdict) => v.KeptExcluded?)|
      && t.userOrigin <= excluded && t.horizon <= excluded
  {
    if vs != [] {
      var front, last := vs[..|vs| - 1], vs[|vs| - 1];
      assert vs == front + [last] && [last][1..] == [];
      TallyClassifies(front);
      FilterAppend(front, [last], (v: Verdict) => !v.NotACandidate?);
      FilterAppend(front, [last], (v: Verdict) => v.Trimmed?);
      FilterAppend(front, [last], (v: Verdict) => v.KeptExcluded?);
    }
  }

  lemma {:induction false} TrimmedVerdicts(r: Rules, bundles: seq<LoadedBundle>, k: nat, h: Horizon, ids: seq<string>)
    requires UnknownsReadable(r, bundles)
    ensures |Filter(ids, IsTrimmed(r, bundles, k, h))|
            == |Filter(VerdictsOf(r, bundles, k, h, ids), (v: Verdict) => v.Trimmed?)|
  {
    hide VerdictOf, UnknownsReadable;
    if ids != [] {
      TrimmedVerdicts(r, bundles, k, h, ids[1..]);
      assert VerdictsOf(r, bundles, k, h, ids)[1..] == VerdictsOf(r, bundles, k, h, ids[1..]);
    }
  }

  /** The candidates of a run fall into three disjoint groups: trimmed, within K, and excluded for some reason. */
  lemma CandidatesClassified(r: Rules, bundles: seq<LoadedBundle>, k: nat, h: Horizon)
    requires UnknownsReadable(r, bundles)
    ensures
      var ids := SortedSet(SupersededIds(r, bundles));
      var vs := VerdictsOf(r, bundles, k, h, ids);
      var excluded := |Filter(vs, (v: Verdict) => v.KeptExcluded?)|;
      var t := Tallied(r, bundles, k, h, ids);
      && |Filter(vs, (v: Verdict) => !v.NotACandidate?)| == |Plan(r, bundles, k, h)| + t.withinK + excluded
      && t.unknownRef <= excluded && t.userOrigin <= excluded && t.horizon <= excluded
  {
    hide SupersededIds, VerdictOf;
    var ids := SortedSet(SupersededIds(r, bundles));
    TallyClassifies(VerdictsOf(r, bundles, k, h, ids));
    TrimmedVerdicts(r, bundles, k, h, ids);
  }

  // ----- monotonicity -----

  /** The second horizon protects whatever the first one does. */
  predicate Deeper(h1: Horizon, h2: Horizon) {
    h1.NoHorizon? || (h2.Ordinal? && h2.deepestGateOrdinal <= h1.deepestGateOrdinal)
  }

  lemma TakeSubset(s: seq<LoadedBundle>, k1: nat, k2: nat, b: LoadedBundle)
    requires k1 <= k2 && b in Take(s, k1)
    ensures b in Take(s, k2)
  {
    var i :| 0 <= i < |Take(s, k1)| && Take(s, k1)[i] == b;
    assert Take(s, k2)[i] == b;
  }

  lemma WithinKGrows(r: Rules, bundles: seq<LoadedBundle>, k1: nat, k2: nat)
    requires k1 <= k2
    ensures WithinK(r, bundles, k1) <= WithinK(r, bundles, k2)
  {
    hide Ranked, ChainKeys;
    forall id | id in WithinK(r, bundles, k1) ensures id in WithinK(r, bundles, k2) {
      var key, b :| key in ChainKeys(r, bundles) && b in Take(Ranked(r, bundles, key), k1) && Id(b) == id;
      TakeSubset(Ranked(r, bundles, key), k1, k2, b);
    }
  }

  /** Retaining more, or protecting from an earlier ordinal on, only ever removes entries from the plan. */
  lemma PlanMonotone(r: Rules, bundles: seq<LoadedBundle>, k1: nat, k2: nat, h1: Horizon, h2: Horizon)
    requires UnknownsReadable(r, bundles) && k1 <= k2 && Deeper(h1, h2)
    ensures Plan(r, bundles, k2, h2) == Filter(Plan(r, bundles, k1, h1), IsTrimmed(r, bundles, k2, h2))
    ensures forall id :: id in Plan(r, bundles, k2, h2) ==> id in Plan(r, bundles, k1, h1)
  {
    hide SupersededIds, WithinK, UnknownRefs, LastWith, TrustOf;
    WithinKGrows(r, bundles, k1, k2);
    FilterFilter(SortedSet(SupersededIds(r, bundles)), IsTrimmed(r, bundles, k1, h1), IsTrimmed(r, bundles, k2, h2));
  }
}
