/** What a run report says, count by count, read off the event stream alone. */
module RunMeaning {
  import opened Prelude
  import opened RunSubscriber

  // ----- steps -----

  function StepsWith(steps: seq<StepEnd>, statuses: set<string>): nat {
    |Filter(steps, (s: StepEnd) => s.status in statuses)|
  }

  /** Sums of a column over the steps that reported one. */
  function Total(steps: seq<StepEnd>, column: Usage -> int): int {
    if steps == [] then 0 else (if steps[0].usage.Reported? then column(steps[0].usage) else 0) + Total(steps[1..], column)
  }

  lemma {:induction false} TotalIs(steps: seq<StepEnd>, column: Usage -> int)
    ensures SumOf(steps, column) == Total(steps, column)
  {
    if steps != [] {
      TotalIs(steps[..|steps| - 1], column);
      TotalLast(steps[..|steps| - 1], steps[|steps| - 1], column);
      assert steps == steps[..|steps| - 1] + [steps[|steps| - 1]];
    }
  }

  lemma {:induction false} TotalLast(steps: seq<StepEnd>, s: StepEnd, column: Usage -> int)
    ensures Total(steps + [s], column) == Total(steps, column) + (if s.usage.Reported? then column(s.usage) else 0)
  {
    if steps == [] {
      assert steps + [s] == [s] && [s][1..] == [];
    } else {
      assert (steps + [s])[1..] == steps[1..] + [s];
      TotalLast(steps[1..], s, column);
    }
  }

  /** A tally counts the steps by their status, and has token sums exactly when some step reported usage. */
  lemma TallyIs(steps: seq<StepEnd>)
    ensures
      var t := TallyOf(steps);
      && t.steps == |steps|
      && t.passed == StepsWith(steps, {"passed", "healed"})
      && t.failed == StepsWith(steps, {"failed", "cancelled"})
      && t.skipped == StepsWith(steps, {"skipped"})
      && (t.tokens == None <==> forall s :: s in steps ==> !s.usage.Reported?)
      && (t.tokens.Some? ==>
            && t.tokens.value.input == Total(steps, (u: Usage) => if u.Reported? then u.prompt else 0)
            && t.tokens.value.output == Total(steps, (u: Usage) => if u.Reported? then u.completion else 0)
            && t.tokens.value.total == Total(steps, (u: Usage) => if u.Reported? then u.total else 0))
  {
    hide CountIf, SumOf, Total, StepsWith;
    CountWith(steps, (s: string) => PassedStep(s), {"passed", "healed"});
    CountWith(steps, (s: string) => FailedStep(s), {"failed", "cancelled"});
    CountWith(steps, (s: string) => SkippedStep(s), {"skipped"});
    SameTotal(steps, u => PromptOf(u), (u: Usage) => if u.Reported? then u.prompt else 0);
    SameTotal(steps, u => CompletionOf(u), (u: Usage) => if u.Reported? then u.completion else 0);
    SameTotal(steps, u => TotalOf(u), (u: Usage) => if u.Reported? then u.total else 0);
  }

  lemma CountWith(steps: seq<StepEnd>, p: string -> bool, statuses: set<string>)
    requires forall x :: p(x) <==> x in statuses
    ensures CountIf(steps, p) == StepsWith(steps, statuses)
  {
    FilterCongruent(steps, (s: StepEnd) => p(s.status), (s: StepEnd) => s.status in statuses);
  }

  lemma {:induction false} SameTotal(steps: seq<StepEnd>, f: Usage -> int, g: Usage -> int)
    requires forall u :: f(u) == g(u)
    ensures SumOf(steps, f) == Total(steps, g)
  {
    TotalIs(steps, f);
    SameColumn(steps, f, g);
  }

  lemma {:induction false} SameColumn(steps: seq<StepEnd>, f: Usage -> int, g: Usage -> int)
    requires forall u :: f(u) == g(u)
    ensures Total(steps, f) == Total(steps, g)
  {
    if steps != [] { SameColumn(steps[1..], f, g); }
  }

  // ----- the stream -----

  /** The verdict this event brings. */
  function Brings(e: Event): Option<string> {
    match e
    case Verdict(v) => v
    case RunFinished(v) => v
    case _ => None
  }

  /** The verdict of a run is the last one any event brings. */
  lemma {:induction false} LastVerdictIff(trace: seq<Event>, v: string)
    ensures LastVerdict(trace) == Some(v) <==>
            exists i :: 0 <= i < |trace| && Brings(trace[i]) == Some(v) && forall j :: i < j < |trace| ==> Brings(trace[j]) == None
    ensures LastVerdict(trace) == None <==> forall i :: 0 <= i < |trace| ==> Brings(trace[i]) == None
  {
    if trace != [] {
      var front, last := trace[..|trace| - 1], trace[|trace| - 1];
      LastVerdictIff(front, v);
      assert forall i :: 0 <= i < |front| ==> front[i] == trace[i];
      if Brings(last).Some? {
        assert LastVerdict(trace) == Brings(last) && trace[|trace| - 1] == last;
      } else {
        assert LastVerdict(trace) == LastVerdict(front);
        if i :| 0 <= i < |front| && Brings(front[i]) == Some(v) && forall j :: i < j < |front| ==> Brings(front[j]) == None {
          assert Brings(trace[i]) == Some(v);
        }
      }
    }
  }

  /** A test that finished. */
  predicate Finishes(e: Event, i: nat) { e.TestFinished? && e.index == Some(i) }

  /** Members come in the order in which they first finished. */
  lemma {:induction false} FinishersInOrder(trace: seq<Event>, a: nat, b: nat) returns (p: nat)
    requires a < b < |Finishers(trace)|
    ensures p < |trace| && Finishes(trace[p], Finishers(trace)[a])
    ensures forall q :: 0 <= q <= p ==> !Finishes(trace[q], Finishers(trace)[b])
  {
    var front, last := trace[..|trace| - 1], trace[|trace| - 1];
    if b < |Finishers(front)| {
      p := FinishersInOrder(front, a, b);
      assert forall q :: 0 <= q <= p ==> trace[q] == front[q];
    } else {
      var x, y := Finishers(trace)[a], Finishers(trace)[b];
      MembersAreFinishers(front, x);
      MembersAreFinishers(front, y);
      assert Finishers(front)[a] == x;
      var e :| e in front && e.TestFinished? && e.index == Some(x);
      p :| 0 <= p < |front| && front[p] == e;
      forall q | 0 <= q <= p ensures !Finishes(trace[q], y) { assert front[q] == trace[q] && front[q] in front; }
    }
  }

  // ----- the reports -----

  /** Which outcomes are reported under which status; any other, and none at all, is unknown. */
  predicate ReportedAs(outcome: Option<string>, s: Status) {
    match s
    case Passed => outcome == Some("passed") || outcome == Some("healed")
    case Failed => outcome == Some("failed") || outcome == Some("timeout")
    case Skipped => outcome == Some("skipped")
    case Cancelled => outcome == Some("cancelled")
    case Unknown => outcome.None? || outcome.value !in {"passed", "healed", "failed", "timeout", "skipped", "cancelled"}
  }

  lemma StatusIff(outcome: Option<string>, s: Status)
    ensures StatusOf(outcome.GetOr("unknown")) == s <==> ReportedAs(outcome, s)
    ensures StatusOf(outcome.GetOr("")) == s <==> ReportedAs(outcome, s)
  {
    assert |"unknown"| == 7 && |"timeout"| == 7 && "unknown"[0] == 'u' && |"passed"| == |"healed"| == |"failed"| == 6;
    assert |"skipped"| == 7 && "skipped"[0] == 's' && "timeout"[0] == 't' && |"cancelled"| == 9;
    assert "passed"[0] == 'p' && "healed"[0] == 'h' && "failed"[0] == 'f';
  }

  function MembersWith(members: seq<Member>, outcomes: set<string>): nat {
    |Filter(members, (m: Member) => m.result.outcome.Some? && m.result.outcome.value in outcomes)|
  }

  /** The durations that are known, added up. */
  function Durations(members: seq<Member>): real {
    if members == [] then 0.0 else members[0].result.durationMs.GetOr(0.0) + Durations(members[1..])
  }

  lemma {:induction false} DurationsLast(members: seq<Member>, m: Member)
    ensures Durations(members + [m]) == Durations(members) + m.result.durationMs.GetOr(0.0)
  {
    if members == [] {
      assert members + [m] == [m] && [m][1..] == [];
    } else {
      assert (members + [m])[1..] == members[1..] + [m];
      DurationsLast(members[1..], m);
    }
  }

  lemma {:induction false} DurationIs(members: seq<Member>)
    ensures TotalDuration(members) == Durations(members)
  {
    if members != [] {
      DurationIs(members[..|members| - 1]);
      DurationsLast(members[..|members| - 1], members[|members| - 1]);
      assert members == members[..|members| - 1] + [members[|members| - 1]];
    }
  }

  lemma CountStatusIs(members: seq<Member>, s: Status, outcomes: set<string>)
    requires forall o :: ReportedAs(o, s) <==> o.Some? && o.value in outcomes
    ensures CountStatus(members, s) == MembersWith(members, outcomes)
  {
    forall m: Member ensures (MemberStatus(m) == s) <==> (m.result.outcome.Some? && m.result.outcome.value in outcomes) {
      StatusIff(m.result.outcome, s);
    }
    FilterCongruent(members, (m: Member) => MemberStatus(m) == s,
                    (m: Member) => m.result.outcome.Some? && m.result.outcome.value in outcomes);
  }

  /** The suite report counts the members by outcome, adds their durations up, and is as the last verdict says. */
  lemma SuiteSays(members: seq<Member>, verdict: Option<string>)
    ensures
      var r := SuiteReport(members, verdict);
      && r.SuiteRun? && ReportedAs(verdict, r.status) && r.children == |members| && r.durationMs == Durations(members)
      && r.passed == MembersWith(members, {"passed", "healed"})
      && r.failed == MembersWith(members, {"failed", "timeout"})
      && r.skipped == MembersWith(members, {"skipped"})
  {
    StatusIff(verdict, StatusOf(verdict.GetOr("")));
    DurationIs(members);
    hide StatusOf, CountStatus, MembersWith, Durations, TotalDuration;
    CountStatusIs(members, Passed, {"passed", "healed"});
    CountStatusIs(members, Failed, {"failed", "timeout"});
    CountStatusIs(members, Skipped, {"skipped"});
  }

  /** A test report says how the test ended and what was recorded of it, and calls it flaky when it passed on a retry. */
  lemma TestSays(m: Member)
    ensures
      var r := TestReport(m);
      && r.TestRun? && ReportedAs(m.result.outcome, r.status) && r.result == m.result && r.steps == m.steps
      && (r.flaky == None <==> m.result.retryCount == None)
      && (r.flaky == Some(true) <==>
            m.result.retryCount.Some? && m.result.retryCount.value > 0.0
            && (m.result.outcome == Some("passed") || m.result.outcome == Some("healed")))
  {
    StatusIff(m.result.outcome, MemberStatus(m));
    StatusIff(m.result.outcome, Passed);
  }

  /** One report for each member in order, and the suite's last when there is a suite. */
  lemma ReportsAre(members: seq<Member>, sawSuite: bool, verdict: Option<string>)
    ensures
      var reports := Reports(members, sawSuite, verdict);
      && |reports| == |members| + (if sawSuite then 1 else 0)
      && (forall i :: 0 <= i < |members| ==> reports[i] == TestReport(members[i]))
      && (sawSuite ==> reports[|members|] == SuiteReport(members, verdict))
  {
  }

  // ----- segments and the suite -----

  /** Events that begin the counting of a test anew: its start, its retry, its finish. */
  predicate BeginsAnew(e: Event, i: nat) {
    match e
    case TestStarted(index, _) => index == Some(i)
    case TestRetryScheduled(index) => index == Some(i)
    case TestFinished(index, _) => index == Some(i)
    case _ => false
  }

  /** The segment of a test is its steps since the last of these. */
  lemma SegmentIs(trace: seq<Event>, i: nat) returns (r: nat)
    ensures r <= |trace| && (r > 0 ==> BeginsAnew(trace[r - 1], i))
    ensures forall q :: r <= q < |trace| ==> !BeginsAnew(trace[q], i)
    ensures Segment(trace, i) == StepsOf(trace[r..], i)
  {
    r := SegmentIsSinceReset(trace, i);
    forall e ensures Resets(e, i) <==> BeginsAnew(e, i) {}
  }

  /** A suite is reported when a start with an index named one, and nothing is reported before the run finished. */
  lemma SuiteIff(trace: seq<Event>)
    ensures SawSuite(trace) <==> exists i, id :: TestStarted(Some(i), Some(id)) in trace
    ensures RunIsFinished(trace) <==> exists v :: RunFinished(v) in trace
  {
    if e :| e in trace && e.TestStarted? && e.index.Some? && e.suiteId.Some? {
      assert e == TestStarted(Some(e.index.value), Some(e.suiteId.value));
    }
    if e :| e in trace && e.RunFinished? { assert e == RunFinished(e.aggregateVerdict); }
  }
}
