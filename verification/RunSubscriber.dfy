/**
 * Counting a run from its event stream: the subscriber's running tallies, and what they must add up to for
 * any stream whatsoever.
 */
module RunSubscriber {
  import opened Prelude

  /** Token usage of a step: not reported, reported, or a value that cannot be read (`null`). */
  datatype Usage = NotReported | Reported(prompt: int, completion: int, total: int) | Unreadable

  datatype StepEnd = StepEnd(status: string, usage: Usage)

  /**
   * One envelope. An index that is not a non-negative integer is `None`; `Malformed` is a payload that no
   * property can be read from.
   */
  datatype Event =
    | TestStarted(index: Option<nat>, suiteId: Option<string>)
    | StepFinalized(index: Option<nat>, step: StepEnd)
    | TestRetryScheduled(index: Option<nat>)
    | TestFinished(index: Option<nat>, result: TestResult)
    | Verdict(verdict: Option<string>)
    | RunFinished(aggregateVerdict: Option<string>)
    | Other
    | Malformed

  datatype TestResult = TestResult(
    testId: Option<string>,
    outcome: Option<string>,
    durationMs: Option<real>,
    retryCount: Option<real>)

  datatype Tokens = Tokens(input: int, output: int, total: int)

  datatype Tally = Tally(steps: nat, passed: nat, failed: nat, skipped: nat, tokens: Option<Tokens>)

  datatype Member = Member(result: TestResult, steps: Tally)

  const EMPTY_TALLY := Tally(0, 0, 0, 0, None)

  predicate PassedStep(status: string) { status == "passed" || status == "healed" }

  predicate FailedStep(status: string) { status == "failed" || status == "cancelled" }

  predicate SkippedStep(status: string) { status == "skipped" }

  /** `handleStepFinalized` on one tally. */
  function AddStep(t: Tally, s: StepEnd): Tally {
    var counted := Tally(
      t.steps + 1,
      t.passed + (if PassedStep(s.status) then 1 else 0),
      t.failed + (if FailedStep(s.status) then 1 else 0),
      t.skipped + (if SkippedStep(s.status) then 1 else 0),
      t.tokens);
    match s.usage
    case Reported(prompt, completion, total) =>
      var tokens := t.tokens.GetOr(Tokens(0, 0, 0));
      counted.(tokens := Some(Tokens(tokens.input + prompt, tokens.output + completion, tokens.total + total)))
    case _ => counted
  }

  // ----- what the stream says -----

  /** This event starts the counting of this test afresh. */
  predicate Resets(e: Event, i: nat) {
    (e.TestStarted? || e.TestRetryScheduled? || e.TestFinished?) && e.index == Some(i)
  }

  /** The steps of this test since it last started, was retried or finished. */
  function Segment(trace: seq<Event>, i: nat): seq<StepEnd> {
    if trace == [] then []
    else
      var last := trace[|trace| - 1];
      if Resets(last, i) then []
      else if last.StepFinalized? && last.index == Some(i) then Segment(trace[..|trace| - 1], i) + [last.step]
      else Segment(trace[..|trace| - 1], i)
  }

  function CountIf(steps: seq<StepEnd>, p: string -> bool): nat { |Filter(steps, (s: StepEnd) => p(s.status))| }

  function SumOf(steps: seq<StepEnd>, f: Usage -> int): int {
    if steps == [] then 0
    else SumOf(steps[..|steps| - 1], f) + (if steps[|steps| - 1].usage.Reported? then f(steps[|steps| - 1].usage) else 0)
  }

  predicate AnyReported(steps: seq<StepEnd>) { exists s :: s in steps && s.usage.Reported? }

  function PromptOf(u: Usage): int { if u.Reported? then u.prompt else 0 }

  function CompletionOf(u: Usage): int { if u.Reported? then u.completion else 0 }

  function TotalOf(u: Usage): int { if u.Reported? then u.total else 0 }

  /** What a list of steps adds up to: counts by status, and token sums that are absent while nothing is measured. */
  function TallyOf(steps: seq<StepEnd>): Tally {
    Tally(
      |steps|,
      CountIf(steps, (s: string) => PassedStep(s)),
      CountIf(steps, (s: string) => FailedStep(s)),
      CountIf(steps, (s: string) => SkippedStep(s)),
      if AnyReported(steps) then
        Some(Tokens(SumOf(steps, u => PromptOf(u)), SumOf(steps, u => CompletionOf(u)), SumOf(steps, u => TotalOf(u))))
      else None)
  }

  /** What the last finish of this test recorded. */
  function MemberOf(trace: seq<Event>, i: nat): Option<Member> {
    if trace == [] then None
    else
      var front, last := trace[..|trace| - 1], trace[|trace| - 1];
      if last.TestFinished? && last.index == Some(i) then Some(Member(last.result, TallyOf(Segment(front, i))))
      else MemberOf(front, i)
  }

  /** The tests that finished, by first finish. */
  function Finishers(trace: seq<Event>): seq<nat> {
    if trace == [] then []
    else
      var front, last := trace[..|trace| - 1], trace[|trace| - 1];
      if last.TestFinished? && last.index.Some? && last.index.value !in Finishers(front) then
        Finishers(front) + [last.index.value]
      else Finishers(front)
  }

  predicate SawSuite(trace: seq<Event>) {
    exists e :: e in trace && e.TestStarted? && e.index.Some? && e.suiteId.Some?
  }

  predicate RunIsFinished(trace: seq<Event>) { exists e :: e in trace && e.RunFinished? }

  /** The last verdict that could be read, from a verdict or from the end of the run. */
  function LastVerdict(trace: seq<Event>): Option<string> {
    if trace == [] then None
    else
      var last := trace[|trace| - 1];
      if last.Verdict? && last.verdict.Some? then last.verdict
      else if last.RunFinished? && last.aggregateVerdict.Some? then last.aggregateVerdict
      else LastVerdict(trace[..|trace| - 1])
  }

  // ----- what is reported -----

  datatype Status = Passed | Failed | Skipped | Cancelled | Unknown

  function StatusOf(outcome: string): Status {
    if outcome == "passed" || outcome == "healed" then Passed
    else if outcome == "failed" || outcome == "timeout" then Failed
    else if outcome == "skipped" then Skipped
    else if outcome == "cancelled" then Cancelled
    else Unknown
  }

  function MemberStatus(m: Member): Status { StatusOf(m.result.outcome.GetOr("unknown")) }

  datatype Report =
    | TestRun(status: Status, result: TestResult, flaky: Option<bool>, steps: Tally)
    | SuiteRun(status: Status, durationMs: real, children: nat, passed: nat, failed: nat, skipped: nat)

  function TestReport(m: Member): Report {
    TestRun(
      MemberStatus(m), m.result,
      match m.result.retryCount case None => None case Some(n) => Some(MemberStatus(m).Passed? && n > 0.0),
      m.steps)
  }

  function TotalDuration(members: seq<Member>): real {
    if members == [] then 0.0
    else TotalDuration(members[..|members| - 1]) + members[|members| - 1].result.durationMs.GetOr(0.0)
  }

  function CountStatus(members: seq<Member>, s: Status): nat { |Filter(members, (m: Member) => MemberStatus(m) == s)| }

  function SuiteReport(members: seq<Member>, verdict: Option<string>): Report {
    SuiteRun(StatusOf(verdict.GetOr("")), TotalDuration(members), |members|,
             CountStatus(members, Passed), CountStatus(members, Failed), CountStatus(members, Skipped))
  }

  function MembersIn(members: map<nat, Member>, order: seq<nat>): seq<Member>
    requires forall i :: i in order ==> i in members
  {
    if order == [] then [] else MembersIn(members, order[..|order| - 1]) + [members[order[|order| - 1]]]
  }

  function Reports(members: seq<Member>, sawSuite: bool, verdict: Option<string>): seq<Report> {
    Map(TestReport, members) + (if sawSuite then [SuiteReport(members, verdict)] else [])
  }

  // ----- the subscriber -----

  /** The live tallies are those of the current segments; a test without one has no steps to count. */
  ghost predicate TalliesHold(live: map<nat, Tally>, trace: seq<Event>) {
    && (forall i: nat :: i in live ==> live[i] == TallyOf(Segment(trace, i)))
    && (forall i: nat :: i !in live ==> Segment(trace, i) == [])
  }

  /** The members are what the last finishes recorded, in order of first finish. */
  ghost predicate RecordsHold(members: map<nat, Member>, order: seq<nat>, trace: seq<Event>) {
    && (forall i: nat :: MemberOf(trace, i) == if i in members then Some(members[i]) else None)
    && order == Finishers(trace) && (forall i: nat :: i in order <==> i in members)
  }

  function LiveTally(live: map<nat, Tally>, i: nat): Tally { if i in live then live[i] else EMPTY_TALLY }

  /** What one event does to the live tallies. */
  function TalliesAfter(live: map<nat, Tally>, e: Event): map<nat, Tally> {
    match e
    case TestStarted(Some(i), _) => live[i := EMPTY_TALLY]
    case StepFinalized(Some(i), step) => live[i := AddStep(LiveTally(live, i), step)]
    case TestRetryScheduled(Some(i)) => live - {i}
    case TestFinished(Some(i), _) => live - {i}
    case _ => live
  }

  class Subscriber {
    var finished: bool
    var aggregateVerdict: Option<string>
    var sawSuite: bool
    var members: map<nat, Member>
    /** The keys of `members` in insertion order. */
    var order: seq<nat>
    var liveSteps: map<nat, Tally>
    var captured: seq<Report>
    /** Everything handled so far. */
    ghost var trace: seq<Event>

    ghost predicate Valid()
      reads this
    {
      && TalliesHold(liveSteps, trace) && RecordsHold(members, order, trace)
      && sawSuite == SawSuite(trace) && finished == RunIsFinished(trace) && aggregateVerdict == LastVerdict(trace)
    }

    constructor ()
      ensures Valid() && trace == [] && captured == []
    {
      finished, aggregateVerdict, sawSuite, members, order := false, None, false, map[], [];
      liveSteps, captured, trace := map[], [], [];
    }

    method HandleTestStarted(index: Option<nat>, suiteId: Option<string>)
      modifies `sawSuite, `liveSteps
      ensures sawSuite == (old(sawSuite) || (index.Some? && suiteId.Some?))
      ensures liveSteps == if index.Some? then old(liveSteps)[index.value := EMPTY_TALLY] else old(liveSteps)
    {
      if index == None { return; }
      if suiteId.Some? { sawSuite := true; }
      liveSteps := liveSteps[index.value := EMPTY_TALLY];
    }

    /** The counts are taken before the usage is read, so a step with unreadable usage is still counted. */
    method HandleStepFinalized(index: Option<nat>, step: StepEnd)
      modifies `liveSteps
      ensures liveSteps ==
              if index == None then old(liveSteps)
              else old(liveSteps)[index.value :=
                AddStep(LiveTally(old(liveSteps), index.value), step)]
    {
      if index == None { return; }
      var tally := if index.value in liveSteps then liveSteps[index.value] else EMPTY_TALLY;
      tally := tally.(steps := tally.steps + 1);
      if PassedStep(step.status) {
        tally := tally.(passed := tally.passed + 1);
      } else if FailedStep(step.status) {
        tally := tally.(failed := tally.failed + 1);
      } else if SkippedStep(step.status) {
        tally := tally.(skipped := tally.skipped + 1);
      }
      liveSteps := liveSteps[index.value := tally];
      if step.usage.Unreadable? { return; }
      if step.usage.Reported? {
        var tokens := tally.tokens.GetOr(Tokens(0, 0, 0));
        tokens := Tokens(tokens.input + step.usage.prompt, tokens.output + step.usage.completion, tokens.total + step.usage.total);
        liveSteps := liveSteps[index.value := tally.(tokens := Some(tokens))];
      }
    }

    method HandleTestFinished(index: Option<nat>, result: TestResult)
      modifies `members, `order, `liveSteps
      ensures
        if index == None then members == old(members) && order == old(order) && liveSteps == old(liveSteps)
        else
          var i := index.value;
          && members == old(members)[i := Member(result, LiveTally(old(liveSteps), i))]
          && order == (if i in old(members) then old(order) else old(order) + [i])
          && liveSteps == old(liveSteps) - {i}
    {
      if index == None { return; }
      var i := index.value;
      var steps := if i in liveSteps then liveSteps[i] else EMPTY_TALLY;
      if i !in members { order := order + [i]; }
      members := members[i := Member(result, steps)];
      liveSteps := liveSteps - {i};
    }

    method Handler(e: Event)
      requires Valid()
      modifies this
      ensures Valid() && trace == old(trace) + [e] && captured == old(captured)
    {
      hide Segment, MemberOf, Finishers, LastVerdict, SawSuite, RunIsFinished, TalliesHold, RecordsHold, AddStep;
      VerdictStep(trace, e);
      TalliesStep(liveSteps, trace, e);
      RecordsStep(members, order, liveSteps, trace, e);
      match e {
        case TestStarted(index, suiteId) => HandleTestStarted(index, suiteId);
        case StepFinalized(index, step) => HandleStepFinalized(index, step);
        case TestRetryScheduled(index) => if index.Some? { liveSteps := liveSteps - {index.value}; }
        case TestFinished(index, result) => HandleTestFinished(index, result);
        case Verdict(verdict) => if verdict.Some? { aggregateVerdict := verdict; }
        case RunFinished(verdict) =>
          if verdict.Some? { aggregateVerdict := verdict; }
          finished := true;
        case Other =>
        case Malformed =>
      }
      trace := trace + [e];
    }

    /** `flush`: nothing is reported about a run that has not finished. */
    method Flush()
      requires Valid()
      modifies `captured
      ensures
        captured == old(captured)
        + (if RunIsFinished(trace) then
             Reports(MembersIn(members, Finishers(trace)), SawSuite(trace), LastVerdict(trace))
           else [])
    {
      hide Segment, MemberOf, Finishers, LastVerdict, SawSuite, RunIsFinished, TalliesHold, TestReport, SuiteReport;
      if !finished { return; }
      ghost var before := captured;
      var records: seq<Member> := [];
      for i := 0 to |order|
        invariant records == MembersIn(members, order[..i])
        invariant captured == before + Map(TestReport, records)
      {
        assert order[..i + 1][..i] == order[..i];
        MapLast(records, members[order[i]]);
        captured := captured + [TestReport(members[order[i]])];
        records := records + [members[order[i]]];
      }
      assert order[..|order|] == order;
      if sawSuite { captured := captured + [SuiteReport(records, aggregateVerdict)]; }
    }
  }

  lemma {:induction false} MapLast(records: seq<Member>, m: Member)
    ensures Map(TestReport, records + [m]) == Map(TestReport, records) + [TestReport(m)]
  {
  }

  lemma SegmentStep(trace: seq<Event>, e: Event, i: nat)
    ensures Segment(trace + [e], i) ==
            if Resets(e, i) then []
            else if e.StepFinalized? && e.index == Some(i) then Segment(trace, i) + [e.step]
            else Segment(trace, i)
  {
    assert (trace + [e])[..|trace|] == trace;
  }

  lemma EmptyTally()
    ensures TallyOf([]) == EMPTY_TALLY
  {
  }

  /** The three things read off the whole stream, after one more event. */
  lemma VerdictStep(trace: seq<Event>, e: Event)
    ensures SawSuite(trace + [e]) == (SawSuite(trace) || (e.TestStarted? && e.index.Some? && e.suiteId.Some?))
    ensures RunIsFinished(trace + [e]) == (RunIsFinished(trace) || e.RunFinished?)
    ensures LastVerdict(trace + [e]) ==
            (if e.Verdict? && e.verdict.Some? then e.verdict
             else if e.RunFinished? && e.aggregateVerdict.Some? then e.aggregateVerdict
             else LastVerdict(trace))
  {
    assert (trace + [e])[..|trace|] == trace;
    assert forall x :: x in trace + [e] <==> x in trace || x == e;
  }

  /** The live tallies follow the segments. */
  lemma TalliesStep(live: map<nat, Tally>, trace: seq<Event>, e: Event)
    requires TalliesHold(live, trace)
    ensures TalliesHold(TalliesAfter(live, e), trace + [e])
  {
    hide Segment, TallyOf, AddStep;
    var after := TalliesAfter(live, e);
    forall i: nat
      ensures i in after ==> after[i] == TallyOf(Segment(trace + [e], i))
      ensures i !in after ==> Segment(trace + [e], i) == []
    {
      SegmentStep(trace, e, i);
      EmptyTally();
      if e.StepFinalized? { AddedTally(Segment(trace, i), e.step); }
    }
  }

  /** A finish records the live tally, replaces an earlier record and keeps its place. */
  lemma RecordsStep(members: map<nat, Member>, order: seq<nat>, live: map<nat, Tally>, trace: seq<Event>, e: Event)
    requires RecordsHold(members, order, trace) && TalliesHold(live, trace)
    ensures
      if e.TestFinished? && e.index.Some? then
        var i := e.index.value;
        RecordsHold(members[i := Member(e.result, LiveTally(live, i))], if i in members then order else order + [i], trace + [e])
      else RecordsHold(members, order, trace + [e])
  {
    hide Segment, TallyOf;
    assert (trace + [e])[..|trace|] == trace;
    EmptyTally();
  }

  lemma CountGrows(steps: seq<StepEnd>, s: StepEnd, p: string -> bool)
    ensures CountIf(steps + [s], p) == CountIf(steps, p) + (if p(s.status) then 1 else 0)
  {
    var q := (x: StepEnd) => p(x.status);
    FilterAppend(steps, [s], q);
    assert [s][1..] == [];
  }

  lemma SumGrows(steps: seq<StepEnd>, s: StepEnd, f: Usage -> int)
    ensures SumOf(steps + [s], f) == SumOf(steps, f) + (if s.usage.Reported? then f(s.usage) else 0)
  {
    assert (steps + [s])[..|steps|] == steps;
  }

  lemma {:induction false} UnreportedSum(steps: seq<StepEnd>, f: Usage -> int)
    requires !AnyReported(steps)
    ensures SumOf(steps, f) == 0
  {
    if steps != [] {
      var front := steps[..|steps| - 1];
      assert forall s :: s in front ==> s in steps;
      assert steps[|steps| - 1] in steps;
      UnreportedSum(front, f);
    }
  }

  /** Adding a step to a tally is the tally with that step added. */
  lemma AddedTally(steps: seq<StepEnd>, s: StepEnd)
    ensures TallyOf(steps + [s]) == AddStep(TallyOf(steps), s)
  {
    hide CountIf, SumOf;
    CountGrows(steps, s, (x: string) => PassedStep(x));
    CountGrows(steps, s, (x: string) => FailedStep(x));
    CountGrows(steps, s, (x: string) => SkippedStep(x));
    SumGrows(steps, s, u => PromptOf(u));
    SumGrows(steps, s, u => CompletionOf(u));
    SumGrows(steps, s, u => TotalOf(u));
    assert AnyReported(steps + [s]) <==> AnyReported(steps) || s.usage.Reported? by {
      assert forall x :: x in steps + [s] <==> x in steps || x == s;
    }
    if !AnyReported(steps) {
      UnreportedSum(steps, u => PromptOf(u));
      UnreportedSum(steps, u => CompletionOf(u));
      UnreportedSum(steps, u => TotalOf(u));
    }
  }

  // ----- what the numbers satisfy -----

  /** In every recorded tally the classified steps are at most the steps: each step is in at most one class. */
  lemma {:induction false} ClassesWithinSteps(steps: seq<StepEnd>)
    ensures TallyOf(steps).passed + TallyOf(steps).failed + TallyOf(steps).skipped <= TallyOf(steps).steps
    ensures TallyOf(steps).passed + TallyOf(steps).failed + TallyOf(steps).skipped == TallyOf(steps).steps <==>
              forall s :: s in steps ==> PassedStep(s.status) || FailedStep(s.status) || SkippedStep(s.status)
  {
    if steps != [] {
      var front, last := steps[..|steps| - 1], steps[|steps| - 1];
      assert steps == front + [last];
      ClassesWithinSteps(front);
      AddedTally(front, last);
      assert forall s :: s in steps <==> s in front || s == last;
    }
  }

  /** A test is a member exactly when some event finished it. */
  lemma {:induction false} MembersAreFinishers(trace: seq<Event>, i: nat)
    ensures MemberOf(trace, i).Some? <==> i in Finishers(trace)
    ensures i in Finishers(trace) <==> exists e :: e in trace && e.TestFinished? && e.index == Some(i)
    ensures Distinct(Finishers(trace))
  {
    if trace != [] {
      var front, last := trace[..|trace| - 1], trace[|trace| - 1];
      MembersAreFinishers(front, i);
      assert forall e :: e in trace <==> e in front || e == last;
    }
  }

  /** The recorded tally is that of the steps since the last start, retry or finish before the last finish. */
  lemma {:induction false} MemberIsLastFinish(trace: seq<Event>, i: nat) returns (p: nat)
    requires MemberOf(trace, i).Some?
    ensures p < |trace| && trace[p].TestFinished? && trace[p].index == Some(i)
    ensures MemberOf(trace, i) == Some(Member(trace[p].result, TallyOf(Segment(trace[..p], i))))
    ensures forall q :: p < q < |trace| ==> !(trace[q].TestFinished? && trace[q].index == Some(i))
  {
    var front, last := trace[..|trace| - 1], trace[|trace| - 1];
    if last.TestFinished? && last.index == Some(i) {
      p := |trace| - 1;
    } else {
      p := MemberIsLastFinish(front, i);
      assert front[..p] == trace[..p];
    }
  }

  /** The steps of a segment are those after the last reset, in order. */
  lemma {:induction false} SegmentIsSinceReset(trace: seq<Event>, i: nat) returns (r: nat)
    ensures r <= |trace| && (r > 0 ==> Resets(trace[r - 1], i))
    ensures forall q :: r <= q < |trace| ==> !Resets(trace[q], i)
    ensures Segment(trace, i) == StepsOf(trace[r..], i)
  {
    if trace == [] {
      r := 0;
    } else {
      var front, last := trace[..|trace| - 1], trace[|trace| - 1];
      if Resets(last, i) {
        r := |trace|;
        assert trace[r..] == [];
      } else {
        r := SegmentIsSinceReset(front, i);
        assert trace[r..] == front[r..] + [last];
        StepsLast(front[r..], last, i);
      }
    }
  }

  /** All steps of this test in a stretch of the stream. */
  function StepsOf(trace: seq<Event>, i: nat): seq<StepEnd> {
    if trace == [] then []
    else (if trace[0].StepFinalized? && trace[0].index == Some(i) then [trace[0].step] else []) + StepsOf(trace[1..], i)
  }

  lemma {:induction false} StepsLast(trace: seq<Event>, e: Event, i: nat)
    ensures StepsOf(trace + [e], i) ==
            StepsOf(trace, i) + (if e.StepFinalized? && e.index == Some(i) then [e.step] else [])
  {
    if trace == [] {
      assert trace + [e] == [e];
      assert [e][1..] == [];
    } else {
      assert (trace + [e])[1..] == trace[1..] + [e];
      assert (trace + [e])[0] == trace[0];
      StepsLast(trace[1..], e, i);
    }
  }

  lemma {:induction false} StatusesWithinMembers(members: seq<Member>)
    ensures CountStatus(members, Passed) + CountStatus(members, Failed) + CountStatus(members, Skipped) <= |members|
    ensures CountStatus(members, Passed) + CountStatus(members, Failed) + CountStatus(members, Skipped) == |members| <==>
              forall m :: m in members ==> !MemberStatus(m).Cancelled? && !MemberStatus(m).Unknown?
  {
    hide MemberStatus;
    if members != [] {
      StatusesWithinMembers(members[1..]);
      assert members == [members[0]] + members[1..];
      assert forall m :: m in members <==> m == members[0] || m in members[1..];
    }
  }

  lemma {:induction false} MembersInLength(members: map<nat, Member>, order: seq<nat>)
    requires forall i :: i in order ==> i in members
    ensures |MembersIn(members, order)| == |order|
    ensures forall k :: 0 <= k < |order| ==> MembersIn(members, order)[k] == members[order[k]]
  {
    if order != [] { MembersInLength(members, order[..|order| - 1]); }
  }

  /**
   * The suite report counts every finished test once, and its passed, failed and skipped children are at
   * most all of them; they are all of them exactly when no outcome was cancelled or unknown.
   */
  lemma SuiteCountsAddUp(trace: seq<Event>, members: map<nat, Member>)
    requires forall i :: i in Finishers(trace) ==> i in members
    ensures
      var records := MembersIn(members, Finishers(trace));
      var r := SuiteReport(records, LastVerdict(trace));
      && r.children == |SetOf(Finishers(trace))|
      && r.passed + r.failed + r.skipped <= r.children
      && (r.passed + r.failed + r.skipped == r.children <==>
            forall m :: m in records ==> !MemberStatus(m).Cancelled? && !MemberStatus(m).Unknown?)
  {
    hide MemberStatus, Finishers, LastVerdict;
    var order := Finishers(trace);
    MembersInLength(members, order);
    StatusesWithinMembers(MembersIn(members, order));
    MembersAreFinishers(trace, 0);
    DistinctSize(order);
  }

  lemma {:induction false} DistinctSize(s: seq<nat>)
    requires Distinct(s)
    ensures |SetOf(s)| == |s|
  {
    if s != [] {
      DistinctSize(s[1..]);
      assert s == [s[0]] + s[1..];
      assert SetOf(s) == {s[0]} + SetOf(s[1..]);
      assert s[0] !in SetOf(s[1..]);
    }
  }
}
