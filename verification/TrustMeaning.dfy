/** What the log of a record amounts to: which events count, and what status, window and trust follow from them. */
module TrustMeaning {
  import opened Prelude
  import opened Outcomes

  // ----- the events that count -----

  /** The event is logged, and no earlier line has its token and job. */
  predicate First(events: seq<Event>, e: Event) {
    exists i :: 0 <= i < |events| && events[i] == e && forall j :: 0 <= j < i ==> DedupKey(events[j]) != DedupKey(e)
  }

  /** The audit line withdraws the event: a retraction any event, an overturning only an observation. */
  predicate Withdraws(a: Event, e: Event) {
    match a.kind
    case Retracted(token, job) => token + ":" + job == e.token + ":" + e.job
    case Overturned(token, job) =>
      token + ":" + job == e.token + ":" + e.job
      && (e.kind == Confirmed || e.kind == Contradicted || e.kind == Helpful || e.kind == Harmful)
    case _ => false
  }

  /** An event is the first of its key when it comes first, or is first in the rest and of another key. */
  lemma FirstIff(events: seq<Event>, e: Event)
    requires events != []
    ensures First(events, e) <==> e == events[0] || (First(events[1..], e) && DedupKey(e) != DedupKey(events[0]))
  {
    hide DedupKey;
    var rest := events[1..];
    if First(rest, e) && DedupKey(e) != DedupKey(events[0]) {
      var i :| 0 <= i < |rest| && rest[i] == e && forall j :: 0 <= j < i ==> DedupKey(rest[j]) != DedupKey(e);
      assert events[i + 1] == e && forall j :: 0 < j < i + 1 ==> events[j] == rest[j - 1];
    }
    if First(events, e) && e != events[0] {
      var i :| 0 <= i < |events| && events[i] == e && forall j :: 0 <= j < i ==> DedupKey(events[j]) != DedupKey(e);
      assert rest[i - 1] == e && forall j :: 0 <= j < i - 1 ==> rest[j] == events[j + 1];
      assert DedupKey(events[0]) != DedupKey(e);
    }
    if e == events[0] { assert First(events, e) by { assert events[0] == e; } }
  }

  lemma {:induction false} DedupedIff(events: seq<Event>, seen: set<string>, e: Event)
    ensures e in DedupeAfter(events, seen) <==> First(events, e) && DedupKey(e) !in seen
  {
    hide First, DedupKey;
    if events == [] {
      NothingFirst(e);
    } else {
      var key := DedupKey(events[0]);
      DedupedIff(events[1..], if key in seen then seen else seen + {key}, e);
      FirstIff(events, e);
    }
  }

  lemma NothingFirst(e: Event)
    ensures !First([], e)
  {
  }

  /** An event counts exactly when it is the first of its key, no audit line, and withdrawn by no such first line. */
  lemma SurvivingIff(events: seq<Event>, e: Event)
    ensures e in Surviving(events) <==>
            && First(events, e) && !e.kind.Retracted? && !e.kind.Overturned?
            && forall a :: a in events && First(events, a) ==> !Withdraws(a, e)
  {
    hide First;
    var d := Dedupe(events);
    forall x ensures x in d <==> First(events, x) { DedupedIff(events, {}, x); }
    FirstIsLogged(events);
    assert DedupKey(e) in RetractedKeys(d) <==>
           exists a :: a in d && a.kind.Retracted? && KeyText(a.kind.retractsToken, a.kind.retractsJob) == DedupKey(e);
    assert DedupKey(e) in OverturnedKeys(d) <==>
           exists a :: a in d && a.kind.Overturned? && KeyText(a.kind.overturnsToken, a.kind.overturnsJob) == DedupKey(e);
  }

  lemma FirstIsLogged(events: seq<Event>)
    ensures forall a :: First(events, a) ==> a in events
  {
  }

  // ----- the status -----

  predicate Turns(e: Event) { e.kind.Promoted? || e.kind.Superseded? || e.kind.Deprecated? }

  /** The ordinal of the last turn in the life of a record, its creation being the first. */
  predicate LastTurn(events: seq<Event>, createdAt: int, n: int) {
    && n >= createdAt
    && (forall e :: e in events && Turns(e) ==> e.ordinal <= n)
    && (n == createdAt || exists e :: e in events && Turns(e) && e.ordinal == n)
  }

  /** At the last turn a promotion wins, then the creation, then a supersession. */
  function StatusAt(events: seq<Event>, createdAt: int, n: int): Status {
    if exists e :: e in events && e.kind.Promoted? && e.ordinal == n then Active
    else if n == createdAt then Candidate
    else if exists e :: e in events && e.kind.Superseded? && e.ordinal == n then SupersededStatus
    else DeprecatedStatus
  }

  /** The status is the outcome of the last turn, which there always is. */
  lemma StatusIs(events: seq<Event>, origin: OriginClass, incomplete: bool, createdAt: int) returns (n: int)
    ensures LastTurn(Surviving(events), createdAt, n)
    ensures Trust(events, origin, incomplete, createdAt).status == StatusAt(Surviving(events), createdAt, n)
  {
    hide Surviving, TrustValue;
    var s := Surviving(events);
    FoldDescribes(s, createdAt);
    n := StandingIs(FoldAll(s, createdAt), s, createdAt);
  }

  lemma StandingIs(f: Fold, s: seq<Event>, createdAt: int) returns (n: int)
    requires Describes(f, s, createdAt)
    ensures LastTurn(s, createdAt, n) && f.standing.status == StatusAt(s, createdAt, n)
  {
    hide Count, CloseOf, LaterClose;
    n := f.standing.ordinal;
    forall e | e in s && Turns(e)
      ensures e.ordinal <= n
      ensures e.ordinal == n ==> Precedence(LifecycleStatus(e).value) <= Precedence(f.standing.status)
    {
      assert StandingOf(e).Some? && !Outranks(StandingOf(e).value, f.standing);
    }
    assert !Outranks(Standing(createdAt, Candidate), f.standing);
    if f.standing != Standing(createdAt, Candidate) {
      var e :| e in s && StandingOf(e) == Some(f.standing);
      assert Turns(e) && e.ordinal == n;
    }
  }

  // ----- the window and the counters -----

  /** The closing line that decides: of the latest build, and of these the one that closes last. */
  predicate Closes(events: seq<Event>, e: Event) {
    && e in events && e.kind.WindowClose?
    && forall x :: x in events && x.kind.WindowClose? ==>
         x.ordinal < e.ordinal || (x.ordinal == e.ordinal && x.kind.closedAtOrdinal <= e.kind.closedAtOrdinal)
  }

  /** The window opens with the creation and is closed exactly as the deciding line says. */
  lemma ClosedIff(events: seq<Event>, origin: OriginClass, incomplete: bool, createdAt: int, n: int)
    ensures Trust(events, origin, incomplete, createdAt).openedAtOrdinal == createdAt
    ensures Trust(events, origin, incomplete, createdAt).closedAtOrdinal == Some(n) <==>
            exists e :: Closes(Surviving(events), e) && e.kind.closedAtOrdinal == n
    ensures Trust(events, origin, incomplete, createdAt).closedAtOrdinal == None <==>
            forall e :: e in Surviving(events) ==> !e.kind.WindowClose?
  {
    hide Surviving, TrustValue;
    FoldDescribes(Surviving(events), createdAt);
    CloseIs(FoldAll(Surviving(events), createdAt), Surviving(events), createdAt, n);
  }

  lemma CloseIs(f: Fold, s: seq<Event>, createdAt: int, n: int)
    requires Describes(f, s, createdAt)
    ensures f.close.Some? && f.close.value.closedAtOrdinal == n <==> exists e :: Closes(s, e) && e.kind.closedAtOrdinal == n
    ensures f.close == None <==> forall e :: e in s ==> !e.kind.WindowClose?
  {
    hide Count, StandingOf, Outranks;
    forall e | e in s && e.kind.WindowClose? ensures f.close.Some? && !LaterClose(Close(e.ordinal, e.kind.closedAtOrdinal), f.close.value) {
      assert CloseOf(e).Some?;
    }
    if f.close.Some? {
      var e :| e in s && CloseOf(e) == f.close;
      assert Closes(s, e);
    }
  }

  /** The counters count the surviving observations, each kind its own. */
  lemma CountersAre(events: seq<Event>, origin: OriginClass, incomplete: bool, createdAt: int)
    ensures
      var s, c := Surviving(events), Trust(events, origin, incomplete, createdAt).counters;
      && c.confirmed == |Filter(s, (e: Event) => e.kind == Confirmed)|
      && c.contradicted == |Filter(s, (e: Event) => e.kind == Contradicted)|
      && c.helpful == |Filter(s, (e: Event) => e.kind == Helpful)|
      && c.harmful == |Filter(s, (e: Event) => e.kind == Harmful)|
  {
    hide Surviving, TrustValue;
    var s := Surviving(events);
    FoldDescribes(s, createdAt);
    CountIs(s, Confirmed, (e: Event) => e.kind == Confirmed);
    CountIs(s, Contradicted, (e: Event) => e.kind == Contradicted);
    CountIs(s, Helpful, (e: Event) => e.kind == Helpful);
    CountIs(s, Harmful, (e: Event) => e.kind == Harmful);
  }

  lemma {:induction false} CountIs(s: seq<Event>, kind: EventKind, p: Event -> bool)
    requires forall e :: p(e) <==> e.kind == kind
    ensures Count(s, kind) == |Filter(s, p)|
  {
    if s != [] {
      var front, last := s[..|s| - 1], s[|s| - 1];
      assert s == front + [last] && [last][1..] == [];
      CountIs(front, kind, p);
      FilterAppend(front, [last], p);
    }
  }

  /** The last confirmation is the latest surviving one, or the creation when there is none. */
  lemma LastConfirmedIs(events: seq<Event>, origin: OriginClass, incomplete: bool, createdAt: int)
    ensures
      var s, n := Surviving(events), Trust(events, origin, incomplete, createdAt).lastConfirmedOrdinal;
      if exists e :: e in s && e.kind.Confirmed? then
        && (exists e :: e in s && e.kind.Confirmed? && e.ordinal == n)
        && forall e :: e in s && e.kind.Confirmed? ==> e.ordinal <= n
      else n == createdAt
  {
    hide Surviving, TrustValue, Count, StandingOf, CloseOf;
    FoldDescribes(Surviving(events), createdAt);
  }
}
