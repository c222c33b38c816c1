/** Outcome events, the events that survive replay and rollback, and the trust state folded from them. */
module Outcomes {
  import opened Prelude

  datatype EventKind =
    | Confirmed
    | Contradicted
    | Helpful
    | Harmful
    | Superseded(byRecordId: string)
    | Retracted(retractsToken: string, retractsJob: string)
    | Deprecated
    | Promoted
    | WindowClose(closedAtOrdinal: int)
    | Overturned(overturnsToken: string, overturnsJob: string)

  datatype Event = Event(
    kind: EventKind,
    token: string,
    job: string,
    ordinal: int,
    observationId: Option<string>)

  function KeyText(token: string, job: string): string { token + ":" + job }

  function DedupKey(e: Event): string { KeyText(e.token, e.job) }

  predicate IsAudit(e: Event) { e.kind.Retracted? || e.kind.Overturned? }

  predicate IsObservation(e: Event) {
    e.kind.Confirmed? || e.kind.Contradicted? || e.kind.Helpful? || e.kind.Harmful?
  }

  function Keys(events: seq<Event>): (r: set<string>) {
    set e | e in events :: DedupKey(e)
  }

  /** The events whose key is neither in `seen` nor earlier in the list. */
  function DedupeAfter(events: seq<Event>, seen: set<string>): seq<Event> {
    if events == [] then []
    else if DedupKey(events[0]) in seen then DedupeAfter(events[1..], seen)
    else [events[0]] + DedupeAfter(events[1..], seen + {DedupKey(events[0])})
  }

  function Dedupe(events: seq<Event>): seq<Event> { DedupeAfter(events, {}) }

  function RetractedKeys(events: seq<Event>): set<string> {
    set e | e in events && e.kind.Retracted? :: KeyText(e.kind.retractsToken, e.kind.retractsJob)
  }

  function OverturnedKeys(events: seq<Event>): set<string> {
    set e | e in events && e.kind.Overturned? :: KeyText(e.kind.overturnsToken, e.kind.overturnsJob)
  }

  predicate Survives(e: Event, retracted: set<string>, overturned: set<string>) {
    && !IsAudit(e)
    && DedupKey(e) !in retracted
    && (!IsObservation(e) || DedupKey(e) !in overturned)
  }

  function Kept(events: seq<Event>, retracted: set<string>, overturned: set<string>): seq<Event> {
    Filter(events, (e: Event) => Survives(e, retracted, overturned))
  }

  /** The lifecycle effects left once replays are dropped and rollbacks are read. */
  function Surviving(events: seq<Event>): seq<Event> {
    var d := Dedupe(events);
    Kept(d, RetractedKeys(d), OverturnedKeys(d))
  }

  method DedupeEvents(events: seq<Event>) returns (deduped: seq<Event>)
    ensures deduped == Dedupe(events)
  {
    var keys: set<string> := {};
    deduped := [];
    for i := 0 to |events|
      invariant deduped + DedupeAfter(events[i..], keys) == Dedupe(events)
    {
      var key := DedupKey(events[i]);
      assert events[i..][1..] == events[i + 1..];
      if key !in keys {
        keys := keys + {key};
        deduped := deduped + [events[i]];
      }
    }
    assert events[|events|..] == [];
  }

  method SurvivingOutcomeEvents(events: seq<Event>) returns (surviving: seq<Event>)
    ensures surviving == Surviving(events)
  {
    var deduped := DedupeEvents(events);
    var retracted: set<string> := {};
    var overturned: set<string> := {};
    for i := 0 to |deduped|
      invariant retracted == RetractedKeys(deduped[..i])
      invariant overturned == OverturnedKeys(deduped[..i])
    {
      var event := deduped[i];
      AuditKeysStep(deduped, i);
      if event.kind.Overturned? {
        overturned := overturned + {KeyText(event.kind.overturnsToken, event.kind.overturnsJob)};
      } else if event.kind.Retracted? {
        retracted := retracted + {KeyText(event.kind.retractsToken, event.kind.retractsJob)};
      }
    }
    assert deduped[..|deduped|] == deduped;
    surviving := Kept(deduped, retracted, overturned);
  }

  lemma AuditKeysStep(events: seq<Event>, i: nat)
    requires i < |events|
    ensures
      var e := events[i];
      && RetractedKeys(events[..i + 1]) == RetractedKeys(events[..i]) +
           (if e.kind.Retracted? then {KeyText(e.kind.retractsToken, e.kind.retractsJob)} else {})
      && OverturnedKeys(events[..i + 1]) == OverturnedKeys(events[..i]) +
           (if e.kind.Overturned? then {KeyText(e.kind.overturnsToken, e.kind.overturnsJob)} else {})
  {
    assert events[..i + 1] == events[..i] + [events[i]];
    assert forall x :: x in events[..i + 1] <==> x in events[..i] || x == events[i];
  }

  // ----- replay -----

  ghost predicate DistinctKeys(events: seq<Event>) {
    forall i, j :: 0 <= i < j < |events| ==> DedupKey(events[i]) != DedupKey(events[j])
  }

  lemma {:induction false} DedupeShape(events: seq<Event>, seen: set<string>)
    ensures DistinctKeys(DedupeAfter(events, seen))
    ensures forall e :: e in DedupeAfter(events, seen) ==> e in events && DedupKey(e) !in seen
    ensures Keys(DedupeAfter(events, seen)) == Keys(events) - seen
  {
    if events != [] {
      var key := DedupKey(events[0]);
      assert events == [events[0]] + events[1..];
      assert Keys(events) == {key} + Keys(events[1..]);
      if key in seen {
        DedupeShape(events[1..], seen);
      } else {
        var rest := DedupeAfter(events[1..], seen + {key});
        DedupeShape(events[1..], seen + {key});
        assert Keys([events[0]] + rest) == {key} + Keys(rest);
      }
    }
  }

  lemma {:induction false} DedupeAppend(events: seq<Event>, e: Event, seen: set<string>)
    ensures DedupeAfter(events + [e], seen) ==
            DedupeAfter(events, seen) + (if DedupKey(e) in Keys(events) + seen then [] else [e])
  {
    if events == [] {
      assert events + [e] == [e];
      assert Keys(events) == {};
    } else {
      var key := DedupKey(events[0]);
      assert (events + [e])[1..] == events[1..] + [e];
      assert events == [events[0]] + events[1..];
      assert Keys(events) == {key} + Keys(events[1..]);
      if key in seen {
        DedupeAppend(events[1..], e, seen);
        assert Keys(events) + seen == Keys(events[1..]) + seen;
      } else {
        DedupeAppend(events[1..], e, seen + {key});
        assert Keys(events) + seen == Keys(events[1..]) + (seen + {key});
      }
    }
  }

  /** Appending an event whose key is already in the log changes no effect. */
  lemma ReplayIsInert(events: seq<Event>, e: Event)
    requires DedupKey(e) in Keys(events)
    ensures Surviving(events + [e]) == Surviving(events)
  {
    DedupeAppend(events, e, {});
    assert Keys(events) + {} == Keys(events);
    assert Dedupe(events + [e]) == Dedupe(events);
  }

  lemma DedupeFresh(events: seq<Event>, e: Event)
    requires DedupKey(e) !in Keys(events)
    ensures
      var d := Dedupe(events);
      && Dedupe(events + [e]) == d + [e]
      && RetractedKeys(d + [e]) == RetractedKeys(d) +
           (if e.kind.Retracted? then {KeyText(e.kind.retractsToken, e.kind.retractsJob)} else {})
      && OverturnedKeys(d + [e]) == OverturnedKeys(d) +
           (if e.kind.Overturned? then {KeyText(e.kind.overturnsToken, e.kind.overturnsJob)} else {})
  {
    DedupeAppend(events, e, {});
    assert Keys(events) + {} == Keys(events);
    var d := Dedupe(events);
    AuditKeysStep(d + [e], |d|);
    assert (d + [e])[..|d|] == d && (d + [e])[..|d| + 1] == d + [e];
  }

  lemma KeptAppend(d: seq<Event>, e: Event, retracted: set<string>, overturned: set<string>)
    ensures Kept(d + [e], retracted, overturned) ==
            Kept(d, retracted, overturned) + (if Survives(e, retracted, overturned) then [e] else [])
  {
    FilterAppend(d, [e], (x: Event) => Survives(x, retracted, overturned));
  }

  /** A fresh effect event joins the survivors unless an earlier line already cancels its key. */
  lemma FreshEffect(events: seq<Event>, e: Event)
    requires DedupKey(e) !in Keys(events) && !IsAudit(e)
    ensures
      var d := Dedupe(events);
      Surviving(events + [e]) ==
      Surviving(events) + (if Survives(e, RetractedKeys(d), OverturnedKeys(d)) then [e] else [])
  {
    var d := Dedupe(events);
    DedupeFresh(events, e);
    KeptAppend(d, e, RetractedKeys(d), OverturnedKeys(d));
    assert RetractedKeys(d + [e]) == RetractedKeys(d) && OverturnedKeys(d + [e]) == OverturnedKeys(d);
  }

  lemma KeptWithout(d: seq<Event>, retracted: set<string>, overturned: set<string>, target: string)
    ensures Kept(d, retracted + {target}, overturned) ==
            Filter(Kept(d, retracted, overturned), (e: Event) => DedupKey(e) != target)
  {
    FilterBoth(d, (e: Event) => Survives(e, retracted, overturned), (e: Event) => DedupKey(e) != target,
               (e: Event) => Survives(e, retracted + {target}, overturned));
  }

  /** One retraction line cancels exactly the survivors filed under the key it names. */
  lemma RetractionCancels(events: seq<Event>, r: Event)
    requires r.kind.Retracted? && DedupKey(r) !in Keys(events)
    ensures
      var target := KeyText(r.kind.retractsToken, r.kind.retractsJob);
      Surviving(events + [r]) == Filter(Surviving(events), (e: Event) => DedupKey(e) != target)
  {
    var target := KeyText(r.kind.retractsToken, r.kind.retractsJob);
    var d := Dedupe(events);
    DedupeFresh(events, r);
    KeptAppend(d, r, RetractedKeys(d) + {target}, OverturnedKeys(d));
    KeptWithout(d, RetractedKeys(d), OverturnedKeys(d), target);
    assert OverturnedKeys(d + [r]) == OverturnedKeys(d);
  }

  lemma {:induction false} FilterBoth(s: seq<Event>, p: Event -> bool, t: Event -> bool, q: Event -> bool)
    requires forall e :: q(e) <==> p(e) && t(e)
    ensures Filter(Filter(s, p), t) == Filter(s, q)
  {
    if s != [] {
      FilterBoth(s[1..], p, t, q);
      if p(s[0]) { assert ([s[0]] + Filter(s[1..], p))[1..] == Filter(s[1..], p); }
    }
  }

  /** Retracting a retraction does not bring the first target back: audit lines never survive to be cancelled. */
  lemma RetractedRetractionStands(events: seq<Event>, r: Event)
    requires r.kind.Retracted? && DedupKey(r) !in Keys(events)
    requires forall e :: e in events && DedupKey(e) == KeyText(r.kind.retractsToken, r.kind.retractsJob) ==> IsAudit(e)
    ensures Surviving(events + [r]) == Surviving(events)
  {
    RetractionCancels(events, r);
    DedupeShape(events, {});
    FilterAll(Surviving(events), (e: Event) => DedupKey(e) != KeyText(r.kind.retractsToken, r.kind.retractsJob));
  }

  // ----- the trust state -----

  datatype OriginClass = User | AgentVerified | AgentObserved | Import

  datatype Status = Active | Candidate | SupersededStatus | DeprecatedStatus

  datatype Counters = Counters(confirmed: nat, contradicted: nat, helpful: nat, harmful: nat)

  datatype Close = Close(buildOrdinal: int, closedAtOrdinal: int)

  datatype TrustState = TrustState(
    trust: real,
    counters: Counters,
    status: Status,
    openedAtOrdinal: int,
    closedAtOrdinal: Option<int>,
    lastConfirmedOrdinal: int)

  datatype Standing = Standing(ordinal: int, status: Status)

  function Precedence(s: Status): int {
    match s
    case Active => 4
    case Candidate => 3
    case SupersededStatus => 2
    case DeprecatedStatus => 1
  }

  function LifecycleStatus(e: Event): Option<Status> {
    match e.kind
    case Promoted => Some(Active)
    case Superseded(_) => Some(SupersededStatus)
    case Deprecated => Some(DeprecatedStatus)
    case _ => None
  }

  predicate Outranks(a: Standing, b: Standing) {
    a.ordinal > b.ordinal || (a.ordinal == b.ordinal && Precedence(a.status) > Precedence(b.status))
  }

  predicate LaterClose(a: Close, b: Close) {
    a.buildOrdinal > b.buildOrdinal || (a.buildOrdinal == b.buildOrdinal && a.closedAtOrdinal > b.closedAtOrdinal)
  }

  function StandingOf(e: Event): Option<Standing> {
    match LifecycleStatus(e)
    case None => None
    case Some(s) => Some(Standing(e.ordinal, s))
  }

  function CloseOf(e: Event): Option<Close> {
    if e.kind.WindowClose? then Some(Close(e.ordinal, e.kind.closedAtOrdinal)) else None
  }

  /** The accumulator of the fold, one loop iteration at a time. */
  datatype Fold = Fold(counters: Counters, standing: Standing, close: Option<Close>, lastConfirmed: Option<int>)

  function FoldStep(f: Fold, e: Event): Fold {
    var counters :=
      match e.kind
      case Confirmed => f.counters.(confirmed := f.counters.confirmed + 1)
      case Contradicted => f.counters.(contradicted := f.counters.contradicted + 1)
      case Helpful => f.counters.(helpful := f.counters.helpful + 1)
      case Harmful => f.counters.(harmful := f.counters.harmful + 1)
      case _ => f.counters;
    var standing :=
      match StandingOf(e)
      case Some(s) => if Outranks(s, f.standing) then s else f.standing
      case None => f.standing;
    var close :=
      match CloseOf(e)
      case Some(c) => if f.close == None || LaterClose(c, f.close.value) then Some(c) else f.close
      case None => f.close;
    var lastConfirmed :=
      if e.kind.Confirmed? then Some(Max(f.lastConfirmed.GetOr(e.ordinal), e.ordinal)) else f.lastConfirmed;
    Fold(counters, standing, close, lastConfirmed)
  }

  function FoldAll(events: seq<Event>, createdAtOrdinal: int): Fold {
    if events == [] then Fold(Counters(0, 0, 0, 0), Standing(createdAtOrdinal, Candidate), None, None)
    else FoldStep(FoldAll(events[..|events| - 1], createdAtOrdinal), events[|events| - 1])
  }

  function Alpha(origin: OriginClass): real {
    match origin
    case User => 3.0
    case AgentVerified => 2.0
    case AgentObserved => 1.0
    case Import => 0.5
  }

  const BETA := 1.0
  const EVIDENCE_INCOMPLETE_ALPHA_DISCOUNT := 0.5
  const SERVING_ATTRIBUTION_WEIGHT := 0.25

  function TrustValue(c: Counters, origin: OriginClass, evidenceIncomplete: bool): (t: real)
    ensures 0.0 < t < 1.0
  {
    var alpha := Alpha(origin) * (if evidenceIncomplete then EVIDENCE_INCOMPLETE_ALPHA_DISCOUNT else 1.0);
    var positive := c.confirmed as real + SERVING_ATTRIBUTION_WEIGHT * c.helpful as real;
    var negative := c.contradicted as real + SERVING_ATTRIBUTION_WEIGHT * c.harmful as real;
    ProperFraction(positive + alpha, negative + BETA);
    (positive + alpha) / (positive + negative + alpha + BETA)
  }

  lemma ProperFraction(a: real, b: real)
    requires a > 0.0 && b > 0.0
    ensures 0.0 < a / (a + b) < 1.0
  {
    var q := a / (a + b);
    assert q * (a + b) == a;
    assert q <= 0.0 ==> q * (a + b) <= 0.0;
    assert q >= 1.0 ==> q * (a + b) >= a + b;
  }

  /** The weight of an origin before any evidence, half of it when evidence is missing. */
  function Prior(origin: OriginClass, evidenceIncomplete: bool): real {
    Alpha(origin) * (if evidenceIncomplete then 0.5 else 1.0)
  }

  /** `t` is the part of the evidence, one vote against included, that speaks for the record; marks count a quarter. */
  predicate IsTrust(t: real, c: Counters, prior: real) {
    t * (prior + 1.0 + c.confirmed as real + c.contradicted as real + (c.helpful as real + c.harmful as real) / 4.0)
    == prior + c.confirmed as real + c.helpful as real / 4.0
  }

  lemma TrustValueIs(c: Counters, origin: OriginClass, evidenceIncomplete: bool)
    ensures IsTrust(TrustValue(c, origin, evidenceIncomplete), c, Prior(origin, evidenceIncomplete))
  {
    var a := Prior(origin, evidenceIncomplete) + c.confirmed as real + c.helpful as real / 4.0;
    var b := 1.0 + c.contradicted as real + c.harmful as real / 4.0;
    assert TrustValue(c, origin, evidenceIncomplete) == a / (a + b);
    assert a / (a + b) * (a + b) == a;
  }

  /** Trust rises with every confirmation and helpful mark and falls with every contradiction and harmful one. */
  lemma TrustMoves(c: Counters, origin: OriginClass, evidenceIncomplete: bool)
    ensures
      var t := TrustValue(c, origin, evidenceIncomplete);
      && TrustValue(c.(confirmed := c.confirmed + 1), origin, evidenceIncomplete) > t
      && TrustValue(c.(helpful := c.helpful + 1), origin, evidenceIncomplete) > t
      && TrustValue(c.(contradicted := c.contradicted + 1), origin, evidenceIncomplete) < t
      && TrustValue(c.(harmful := c.harmful + 1), origin, evidenceIncomplete) < t
  {
    var a := Prior(origin, evidenceIncomplete) + c.confirmed as real + c.helpful as real / 4.0;
    var b := 1.0 + c.contradicted as real + c.harmful as real / 4.0;
    TrustIs(c, origin, evidenceIncomplete, a, b);
    TrustIs(c.(confirmed := c.confirmed + 1), origin, evidenceIncomplete, a + 1.0, b);
    TrustIs(c.(helpful := c.helpful + 1), origin, evidenceIncomplete, a + 0.25, b);
    TrustIs(c.(contradicted := c.contradicted + 1), origin, evidenceIncomplete, a, b + 1.0);
    TrustIs(c.(harmful := c.harmful + 1), origin, evidenceIncomplete, a, b + 0.25);
    FractionRises(a, b, 1.0);
    FractionRises(a, b, 0.25);
    FractionFalls(a, b, 1.0);
    FractionFalls(a, b, 0.25);
  }

  lemma TrustIs(c: Counters, origin: OriginClass, evidenceIncomplete: bool, a: real, b: real)
    requires a == Prior(origin, evidenceIncomplete) + c.confirmed as real + c.helpful as real / 4.0
    requires b == 1.0 + c.contradicted as real + c.harmful as real / 4.0
    ensures TrustValue(c, origin, evidenceIncomplete) == a / (a + b) && a > 0.0 && b > 0.0
  {
  }

  lemma Cancel(p: real, q: real, x: real)
    requires x > 0.0 && p * x > q * x
    ensures p > q
  {
  }

  lemma Times(q: real, d: real)
    requires 0.0 < q < 1.0 && d > 0.0
    ensures 0.0 < q * d < d
  {
    assert (1.0 - q) * d > 0.0;
  }

  /** Two fractions of which the first has `d` more above and below, or the second `d` less below. */
  lemma FractionsDiffer(p: real, q: real, a: real, b: real, d: real)
    requires d > 0.0 && a > 0.0 && b > 0.0 && 0.0 < q < 1.0 && q * (a + b) == a
    ensures p * (a + b + d) == a + d ==> p > q
    ensures p * (a + b + d) == a ==> p < q
  {
    Times(q, d);
    assert q * (a + b + d) == a + q * d;
    if p * (a + b + d) == a + d { Cancel(p, q, a + b + d); }
    if p * (a + b + d) == a { Cancel(q, p, a + b + d); }
  }

  lemma FractionRises(a: real, b: real, d: real)
    requires a > 0.0 && b > 0.0 && d > 0.0
    ensures (a + d) / (a + d + b) > a / (a + b)
  {
    ProperFraction(a, b);
    FractionsDiffer((a + d) / (a + d + b), a / (a + b), a, b, d);
  }

  lemma FractionFalls(a: real, b: real, d: real)
    requires a > 0.0 && b > 0.0 && d > 0.0
    ensures a / (a + (b + d)) < a / (a + b)
  {
    ProperFraction(a, b);
    FractionsDiffer(a / (a + (b + d)), a / (a + b), a, b, d);
  }

  /** The trust of a record of which nothing is known but its origin. */
  lemma FreshTrust(origin: OriginClass, evidenceIncomplete: bool)
    ensures
      var t := TrustValue(Counters(0, 0, 0, 0), origin, evidenceIncomplete);
      t == match origin
           case User => if evidenceIncomplete then 3.0 / 5.0 else 3.0 / 4.0
           case AgentVerified => if evidenceIncomplete then 1.0 / 2.0 else 2.0 / 3.0
           case AgentObserved => if evidenceIncomplete then 1.0 / 3.0 else 1.0 / 2.0
           case Import => if evidenceIncomplete then 1.0 / 5.0 else 1.0 / 3.0
  {
  }

  function Summarize(f: Fold, origin: OriginClass, evidenceIncomplete: bool, createdAtOrdinal: int): TrustState {
    TrustState(
      TrustValue(f.counters, origin, evidenceIncomplete),
      f.counters,
      f.standing.status,
      createdAtOrdinal,
      (match f.close case Some(c) => Some(c.closedAtOrdinal) case None => None),
      f.lastConfirmed.GetOr(createdAtOrdinal))
  }

  function Trust(events: seq<Event>, origin: OriginClass, evidenceIncomplete: bool, createdAtOrdinal: int): TrustState {
    Summarize(FoldAll(Surviving(events), createdAtOrdinal), origin, evidenceIncomplete, createdAtOrdinal)
  }

  method FoldBundleTrust(events: seq<Event>, origin: OriginClass, evidenceIncomplete: bool, createdAtOrdinal: int)
    returns (state: TrustState)
    ensures state == Trust(events, origin, evidenceIncomplete, createdAtOrdinal)
    ensures exists f: Fold :: Describes(f, Surviving(events), createdAtOrdinal)
              && state == Summarize(f, origin, evidenceIncomplete, createdAtOrdinal)
    ensures IsTrust(state.trust, state.counters, Prior(origin, evidenceIncomplete))
  {
    var surviving := SurvivingOutcomeEvents(events);
    var confirmed, contradicted, helpful, harmful := 0, 0, 0, 0;
    var status, statusBuildOrdinal := Candidate, createdAtOrdinal;
    var latestClose: Option<Close> := None;
    var lastConfirmedOrdinal: Option<int> := None;
    for i := 0 to |surviving|
      invariant confirmed >= 0 && contradicted >= 0 && helpful >= 0 && harmful >= 0
      invariant FoldAll(surviving[..i], createdAtOrdinal) ==
                Fold(Counters(confirmed, contradicted, helpful, harmful), Standing(statusBuildOrdinal, status),
                     latestClose, lastConfirmedOrdinal)
    {
      var event := surviving[i];
      assert surviving[..i + 1][..i] == surviving[..i];
      match event.kind {
        case Confirmed =>
          confirmed := confirmed + 1;
          lastConfirmedOrdinal := Some(Max(lastConfirmedOrdinal.GetOr(event.ordinal), event.ordinal));
        case Contradicted => contradicted := contradicted + 1;
        case Helpful => helpful := helpful + 1;
        case Harmful => harmful := harmful + 1;
        case WindowClose(closedAt) =>
          if latestClose == None
             || event.ordinal > latestClose.value.buildOrdinal
             || (event.ordinal == latestClose.value.buildOrdinal && closedAt > latestClose.value.closedAtOrdinal) {
            latestClose := Some(Close(event.ordinal, closedAt));
          }
        case _ =>
      }
      var next := LifecycleStatus(event);
      if next.Some? && (event.ordinal > statusBuildOrdinal
                        || (event.ordinal == statusBuildOrdinal && Precedence(next.value) > Precedence(status))) {
        status, statusBuildOrdinal := next.value, event.ordinal;
      }
    }
    assert surviving[..|surviving|] == surviving;
    FoldDescribes(surviving, createdAtOrdinal);
    TrustValueIs(Counters(confirmed, contradicted, helpful, harmful), origin, evidenceIncomplete);
    state := Summarize(
      Fold(Counters(confirmed, contradicted, helpful, harmful), Standing(statusBuildOrdinal, status),
           latestClose, lastConfirmedOrdinal),
      origin, evidenceIncomplete, createdAtOrdinal);
  }

  // ----- the fold does not depend on the order of the log -----

  function Count(events: seq<Event>, kind: EventKind): nat {
    if events == [] then 0
    else Count(events[..|events| - 1], kind) + (if events[|events| - 1].kind == kind then 1 else 0)
  }

  /** What each component of the fold means, with no reference to order. */
  ghost predicate Describes(f: Fold, events: seq<Event>, createdAtOrdinal: int) {
    && f.counters == Counters(Count(events, Confirmed), Count(events, Contradicted),
                              Count(events, Helpful), Count(events, Harmful))
    && (f.standing == Standing(createdAtOrdinal, Candidate)
        || exists e :: e in events && StandingOf(e) == Some(f.standing))
    && !Outranks(Standing(createdAtOrdinal, Candidate), f.standing)
    && (forall e :: e in events && StandingOf(e).Some? ==> !Outranks(StandingOf(e).value, f.standing))
    && (f.close.Some? ==> exists e :: e in events && CloseOf(e) == f.close)
    && (forall e :: e in events && CloseOf(e).Some? ==> f.close.Some? && !LaterClose(CloseOf(e).value, f.close.value))
    && (f.lastConfirmed.Some? ==> exists e :: e in events && e.kind.Confirmed? && e.ordinal == f.lastConfirmed.value)
    && (forall e :: e in events && e.kind.Confirmed? ==> f.lastConfirmed.Some? && e.ordinal <= f.lastConfirmed.value)
  }

  lemma {:induction false} FoldDescribes(events: seq<Event>, createdAtOrdinal: int)
    ensures Describes(FoldAll(events, createdAtOrdinal), events, createdAtOrdinal)
  {
    if events != [] {
      var prior := events[..|events| - 1];
      var last := events[|events| - 1];
      FoldDescribes(prior, createdAtOrdinal);
      assert events == prior + [last];
      assert forall e :: e in events <==> e in prior || e == last;
    }
  }

  lemma {:induction false} CountMultiset(events: seq<Event>, kind: EventKind)
    ensures Count(events, kind) == |Filter(events, (e: Event) => e.kind == kind)|
  {
    if events != [] {
      var prior := events[..|events| - 1];
      var last := events[|events| - 1];
      CountMultiset(prior, kind);
      assert events == prior + [last];
      FilterAppend(prior, [last], (e: Event) => e.kind == kind);
    }
  }

  lemma {:induction false} FilterMultiset(s: seq<Event>, p: Event -> bool)
    ensures forall e :: multiset(Filter(s, p))[e] == if p(e) then multiset(s)[e] else 0
  {
    if s != [] {
      FilterMultiset(s[1..], p);
      assert s == [s[0]] + s[1..];
      assert multiset(s) == multiset{s[0]} + multiset(s[1..]);
    }
  }

  lemma CountOrderFree(a: seq<Event>, b: seq<Event>, kind: EventKind)
    requires multiset(a) == multiset(b)
    ensures Count(a, kind) == Count(b, kind)
  {
    var p := (e: Event) => e.kind == kind;
    CountMultiset(a, kind);
    CountMultiset(b, kind);
    FilterMultiset(a, p);
    FilterMultiset(b, p);
    assert multiset(Filter(a, p)) == multiset(Filter(b, p));
    assert |multiset(Filter(a, p))| == |Filter(a, p)|;
    assert |multiset(Filter(b, p))| == |Filter(b, p)|;
  }

  lemma DescriptionUnique(f: Fold, g: Fold, a: seq<Event>, b: seq<Event>, createdAtOrdinal: int)
    requires Describes(f, a, createdAtOrdinal) && Describes(g, b, createdAtOrdinal)
    requires multiset(a) == multiset(b)
    ensures f == g
  {
    CountOrderFree(a, b, Confirmed);
    CountOrderFree(a, b, Contradicted);
    CountOrderFree(a, b, Helpful);
    CountOrderFree(a, b, Harmful);
    assert forall e :: e in a <==> e in multiset(a);
    assert forall e :: e in b <==> e in multiset(b);
    assert forall e :: e in a <==> e in b;
    assert !Outranks(f.standing, g.standing) && !Outranks(g.standing, f.standing);
    assert f.close.Some? == g.close.Some?;
    assert f.lastConfirmed.Some? == g.lastConfirmed.Some?;
  }

  /** The derived status, window and counters depend on which events survive, not on their order. */
  lemma TrustOrderFree(a: seq<Event>, b: seq<Event>, origin: OriginClass, incomplete: bool, createdAtOrdinal: int)
    requires multiset(Surviving(a)) == multiset(Surviving(b))
    ensures Trust(a, origin, incomplete, createdAtOrdinal) == Trust(b, origin, incomplete, createdAtOrdinal)
  {
    FoldDescribes(Surviving(a), createdAtOrdinal);
    FoldDescribes(Surviving(b), createdAtOrdinal);
    DescriptionUnique(FoldAll(Surviving(a), createdAtOrdinal), FoldAll(Surviving(b), createdAtOrdinal),
                      Surviving(a), Surviving(b), createdAtOrdinal);
  }

  /** A record reads as superseded only when a superseding event of its own log survives. */
  lemma SupersededHasEvent(events: seq<Event>, origin: OriginClass, incomplete: bool, createdAtOrdinal: int)
    requires Trust(events, origin, incomplete, createdAtOrdinal).status == SupersededStatus
    ensures exists e :: e in Surviving(events) && e.kind.Superseded? && e.ordinal >= createdAtOrdinal
  {
    FoldDescribes(Surviving(events), createdAtOrdinal);
    var f := FoldAll(Surviving(events), createdAtOrdinal);
    var e :| e in Surviving(events) && StandingOf(e) == Some(f.standing);
  }
}
