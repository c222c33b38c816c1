/**
 * Loading native embedding pipelines: one load at a time in arrival order, with the library's environment
 * borrowed for the length of a load. A step is what runs between two awaits.
 */
module LoadLock {
  import opened Prelude

  datatype EnvVars = EnvVars(remotePathTemplate: string, allowRemoteModels: bool)

  /** What a caller asks for; `directorySafe` says whether the pinned local directory can be resolved. */
  datatype Request = Request(
    key: string,
    revision: string,
    allowDownload: bool,
    directorySafe: bool,
    maxTokens: Option<nat>)

  datatype Phase = Importing | Waiting(previous: Option<nat>) | Inside(original: EnvVars) | Settled(ok: bool)

  datatype Load = Load(request: Request, phase: Phase)

  datatype Memo = Memo(maxTokens: Option<nat>, load: nat)

  /** `tail` is the load whose promise the next one awaits; `tickets` lists the loads in the order they queued up. */
  datatype State = State(
    env: EnvVars,
    tail: Option<nat>,
    released: set<nat>,
    loads: seq<Load>,
    memo: map<string, Memo>,
    tickets: seq<nat>)

  datatype Step =
    | Acquire(request: Request)
    | Imported(load: nat, ok: bool)
    | Enter(load: nat)
    | Leave(load: nat, ok: bool)

  datatype Answer = Pipeline(load: nat) | BudgetConflict

  function PinnedTemplate(revision: string): string { "{model}/resolve/" + revision + "/" }

  /** The environment a load works in. */
  function Borrowed(env: EnvVars, r: Request): EnvVars {
    if r.allowDownload then env.(remotePathTemplate := PinnedTemplate(r.revision)) else env.(allowRemoteModels := false)
  }

  function InPhase(s: State, load: nat, p: Phase): seq<Load>
    requires load < |s.loads|
  {
    s.loads[load := s.loads[load].(phase := p)]
  }

  /** `acquirePipeline`: one load per pipeline key for the life of the process, under the first budget asked for. */
  function AcquireAnswer(s: State, r: Request): Answer {
    if r.key in s.memo then
      if s.memo[r.key].maxTokens != r.maxTokens then BudgetConflict else Pipeline(s.memo[r.key].load)
    else Pipeline(|s.loads|)
  }

  predicate MayEnter(s: State, load: nat) {
    && load < |s.loads| && s.loads[load].phase.Waiting?
    && (s.loads[load].phase.previous == None || s.loads[load].phase.previous.value in s.released)
  }

  function Next(s: State, a: Step): State {
    match a
    case Acquire(r) =>
      if r.key in s.memo then s
      else
        s.(loads := s.loads + [Load(r, Importing)], memo := s.memo[r.key := Memo(r.maxTokens, |s.loads|)])
    case Imported(load, ok) =>
      if load >= |s.loads| || !s.loads[load].phase.Importing? then s
      else if !ok then s.(loads := InPhase(s, load, Settled(false)))
      else s.(loads := InPhase(s, load, Waiting(s.tail)), tail := Some(load), tickets := s.tickets + [load])
    case Enter(load) =>
      if !MayEnter(s, load) then s
      else
        var r := s.loads[load].request;
        if !r.allowDownload && !r.directorySafe then
          s.(loads := InPhase(s, load, Settled(false)), released := s.released + {load})
        else s.(loads := InPhase(s, load, Inside(s.env)), env := Borrowed(s.env, r))
    case Leave(load, ok) =>
      if load >= |s.loads| || !s.loads[load].phase.Inside? then s
      else
        s.(loads := InPhase(s, load, Settled(ok)), env := s.loads[load].phase.original, released := s.released + {load})
  }

  function Start(env: EnvVars): State { State(env, None, {}, [], map[], []) }

  /** The module's variables, and its steps as the code makes them. */
  class PipelineLoader {
    var env: EnvVars
    var tail: Option<nat>
    var released: set<nat>
    var loads: seq<Load>
    var memo: map<string, Memo>
    ghost var tickets: seq<nat>

    ghost function View(): State
      reads this
    {
      State(env, tail, released, loads, memo, tickets)
    }

    constructor (env: EnvVars)
      ensures View() == Start(env)
    {
      this.env, tail, released, loads, memo, tickets := env, None, {}, [], map[], [];
    }

    method AcquirePipeline(r: Request) returns (answer: Answer)
      modifies this
      ensures View() == Next(old(View()), Acquire(r)) && answer == AcquireAnswer(old(View()), r)
    {
      if r.key in memo {
        if memo[r.key].maxTokens != r.maxTokens { return BudgetConflict; }
        return Pipeline(memo[r.key].load);
      }
      var load := |loads|;
      loads := loads + [Load(r, Importing)];
      memo := memo[r.key := Memo(r.maxTokens, load)];
      answer := Pipeline(load);
    }

    /** After the library import: queue up behind the current tail and become the tail. */
    method AfterImport(load: nat, ok: bool)
      modifies this
      ensures View() == Next(old(View()), Imported(load, ok))
    {
      if load >= |loads| || !loads[load].phase.Importing? { return; }
      if !ok {
        loads := loads[load := loads[load].(phase := Settled(false))];
        return;
      }
      var previous := tail;
      tail := Some(load);
      loads := loads[load := loads[load].(phase := Waiting(previous))];
      tickets := tickets + [load];
    }

    /** Once the previous promise has resolved: save the environment and borrow it. */
    method EnterOperation(load: nat)
      modifies this
      ensures View() == Next(old(View()), Enter(load))
    {
      if load >= |loads| || !loads[load].phase.Waiting? { return; }
      var previous := loads[load].phase.previous;
      if previous != None && previous.value !in released { return; }
      var r := loads[load].request;
      if !r.allowDownload && !r.directorySafe {
        loads := loads[load := loads[load].(phase := Settled(false))];
        released := released + {load};
        return;
      }
      var original := env;
      if r.allowDownload {
        env := env.(remotePathTemplate := PinnedTemplate(r.revision));
      } else {
        env := env.(allowRemoteModels := false);
      }
      loads := loads[load := loads[load].(phase := Inside(original))];
    }

    /** Both `finally` blocks: restore the environment, then release the lock. */
    method LeaveOperation(load: nat, ok: bool)
      modifies this
      ensures View() == Next(old(View()), Leave(load, ok))
    {
      if load >= |loads| || !loads[load].phase.Inside? { return; }
      env := loads[load].phase.original;
      loads := loads[load := loads[load].(phase := Settled(ok))];
      released := released + {load};
    }
  }

  // ----- the queue -----

  /** The load that queued up just before the i-th one. */
  function Previous(tickets: seq<nat>, i: nat): Option<nat>
    requires i < |tickets|
  {
    if i == 0 then None else Some(tickets[i - 1])
  }

  /** Where the i-th load of the queue stands when the first `n` have been released. */
  predicate TicketHolds(s: State, n: nat, i: nat)
    requires i < |s.tickets|
  {
    && s.tickets[i] < |s.loads|
    && var phase := s.loads[s.tickets[i]].phase;
       if i < n then phase.Settled?
       else if i == n then phase.Inside? || phase == Waiting(Previous(s.tickets, i))
       else phase == Waiting(Previous(s.tickets, i))
  }

  /** The queue drains from its front: exactly its first `n` loads have been released. */
  ghost predicate Drained(s: State, n: nat) {
    && n <= |s.tickets| && Distinct(s.tickets)
    && (forall i :: 0 <= i < |s.tickets| ==> TicketHolds(s, n, i))
    && s.released == SetOf(s.tickets[..n])
    && s.tail == (if s.tickets == [] then None else Some(s.tickets[|s.tickets| - 1]))
    && (forall x :: 0 <= x < |s.loads| && x !in s.tickets ==> Unqueued(s.loads[x].phase))
  }

  predicate Unqueued(p: Phase) { p.Importing? || p == Settled(false) }

  /** The environment is the original one, or the one borrowed by the load at the front of the queue. */
  ghost predicate EnvHolds(s: State, original: EnvVars, n: nat) {
    if n < |s.tickets| && s.tickets[n] < |s.loads| && s.loads[s.tickets[n]].phase.Inside? then
      s.loads[s.tickets[n]].phase.original == original && s.env == Borrowed(original, s.loads[s.tickets[n]].request)
    else s.env == original
  }

  ghost predicate MemoHolds(s: State) {
    && (forall k :: k in s.memo ==> MemoEntryHolds(s.loads, k, s.memo[k]))
    && (forall x :: 0 <= x < |s.loads| ==> s.loads[x].request.key in s.memo && s.memo[s.loads[x].request.key].load == x)
  }

  predicate MemoEntryHolds(loads: seq<Load>, key: string, m: Memo) {
    m.load < |loads| && loads[m.load].request.key == key && loads[m.load].request.maxTokens == m.maxTokens
  }

  ghost predicate Inv(s: State, original: EnvVars) {
    (exists n: nat :: Drained(s, n) && EnvHolds(s, original, n)) && MemoHolds(s)
  }

  lemma SamePhasesMemo(s: State, t: State)
    requires MemoHolds(s) && t.memo == s.memo && |t.loads| == |s.loads|
    requires forall x :: 0 <= x < |s.loads| ==> t.loads[x].request == s.loads[x].request
    ensures MemoHolds(t)
  {
    forall k | k in t.memo ensures MemoEntryHolds(t.loads, k, t.memo[k]) { assert MemoEntryHolds(s.loads, k, s.memo[k]); }
  }

  lemma MemoKept(s: State, a: Step)
    requires MemoHolds(s)
    ensures MemoHolds(Next(s, a))
  {
    hide MemoHolds;
    var t := Next(s, a);
    match a
    case Acquire(r) => if r.key !in s.memo { AcquireMemo(s, r); }
    case Imported(load, ok) => SamePhasesMemo(s, t);
    case Enter(load) => SamePhasesMemo(s, t);
    case Leave(load, ok) => SamePhasesMemo(s, t);
  }

  lemma AcquireMemo(s: State, r: Request)
    requires MemoHolds(s) && r.key !in s.memo
    ensures MemoHolds(Next(s, Acquire(r)))
  {
    var t := Next(s, Acquire(r));
    forall k | k in t.memo ensures MemoEntryHolds(t.loads, k, t.memo[k]) {
      if k in s.memo { assert MemoEntryHolds(s.loads, k, s.memo[k]); }
    }
  }

  /** The place of a load in the queue, when it has one. */
  lemma TicketIndex(s: State, n: nat, load: nat) returns (i: nat)
    requires Drained(s, n) && load in s.tickets
    ensures i < |s.tickets| && s.tickets[i] == load && TicketHolds(s, n, i)
    ensures load in s.released <==> i < n
  {
    i :| 0 <= i < |s.tickets| && s.tickets[i] == load;
    if i < n { assert s.tickets[..n][i] == load; }
    if load in s.tickets[..n] {
      var j :| 0 <= j < n && s.tickets[..n][j] == load;
      assert s.tickets[j] == load;
    }
  }

  /** Only the front of the queue can be inside, and only it may enter. */
  lemma FrontOnly(s: State, n: nat, load: nat)
    requires Drained(s, n) && load < |s.loads|
    requires s.loads[load].phase.Inside? || MayEnter(s, load)
    ensures n < |s.tickets| && load == s.tickets[n]
  {
    hide Drained;
    if load !in s.tickets { NotQueued(s, n, load); }
    var i := TicketIndex(s, n, load);
    if i > n {
      assert s.tickets[i - 1] in s.tickets;
      var j := TicketIndex(s, n, s.tickets[i - 1]);
      SameTicket(s, n, i - 1, j);
    }
  }

  lemma SameTicket(s: State, n: nat, i: nat, j: nat)
    requires Drained(s, n) && i < |s.tickets| && j < |s.tickets| && s.tickets[i] == s.tickets[j]
    ensures i == j
  {
  }

  lemma NotQueued(s: State, n: nat, load: nat)
    requires Drained(s, n) && load < |s.loads| && load !in s.tickets
    ensures Unqueued(s.loads[load].phase)
  {
  }

  lemma AcquireKept(s: State, original: EnvVars, n: nat, r: Request)
    requires Drained(s, n) && EnvHolds(s, original, n)
    ensures Drained(Next(s, Acquire(r)), n) && EnvHolds(Next(s, Acquire(r)), original, n)
  {
    var t := Next(s, Acquire(r));
    forall i | 0 <= i < |t.tickets| ensures TicketHolds(t, n, i) { assert TicketHolds(s, n, i); }
    if n < |s.tickets| { assert TicketHolds(s, n, n); }
  }

  /** A load that is not queued changes phase without being seen by the queue. */
  lemma UnqueuedKept(s: State, t: State, original: EnvVars, n: nat, load: nat, p: Phase)
    requires Drained(s, n) && EnvHolds(s, original, n) && load < |s.loads| && load !in s.tickets && Unqueued(p)
    requires t == s.(loads := s.loads[load := s.loads[load].(phase := p)])
    ensures Drained(t, n) && EnvHolds(t, original, n)
  {
    forall i | 0 <= i < |t.tickets| ensures TicketHolds(t, n, i) {
      assert TicketHolds(s, n, i) && s.tickets[i] in s.tickets;
    }
    if n < |s.tickets| { assert TicketHolds(s, n, n) && s.tickets[n] in s.tickets; }
  }

  lemma TicketTaken(s: State, original: EnvVars, n: nat, load: nat)
    requires Drained(s, n) && EnvHolds(s, original, n) && load < |s.loads| && load !in s.tickets
    ensures
      var t := s.(loads := InPhase(s, load, Waiting(s.tail)), tail := Some(load), tickets := s.tickets + [load]);
      Drained(t, n) && EnvHolds(t, original, n)
  {
    var t := s.(loads := InPhase(s, load, Waiting(s.tail)), tail := Some(load), tickets := s.tickets + [load]);
    forall i | 0 <= i < |t.tickets| ensures TicketHolds(t, n, i) {
      if i < |s.tickets| { assert TicketHolds(s, n, i) && s.tickets[i] in s.tickets; }
    }
    assert t.tickets[..n] == s.tickets[..n];
    if n < |s.tickets| { assert TicketHolds(s, n, n) && s.tickets[n] in s.tickets; }
  }

  lemma ImportingIsUnqueued(s: State, n: nat, load: nat)
    requires Drained(s, n) && load < |s.loads| && s.loads[load].phase.Importing?
    ensures load !in s.tickets
  {
    hide Drained;
    if load in s.tickets { var i := TicketIndex(s, n, load); }
  }

  lemma ImportedKept(s: State, original: EnvVars, n: nat, load: nat, ok: bool)
    requires Drained(s, n) && EnvHolds(s, original, n)
    ensures Drained(Next(s, Imported(load, ok)), n) && EnvHolds(Next(s, Imported(load, ok)), original, n)
  {
    hide Drained, EnvHolds;
    if load < |s.loads| && s.loads[load].phase.Importing? {
      ImportingIsUnqueued(s, n, load);
      if ok { TicketTaken(s, original, n, load); }
      else { UnqueuedKept(s, Next(s, Imported(load, ok)), original, n, load, Settled(false)); }
    }
  }

  /** The front of the queue changes phase; what it owes the rest is the same. */
  predicate FrontChanged(s: State, t: State, n: nat, p: Phase) {
    && n < |s.tickets| && s.tickets[n] < |s.loads|
    && t.loads == s.loads[s.tickets[n] := s.loads[s.tickets[n]].(phase := p)]
    && t.tail == s.tail && t.tickets == s.tickets
  }

  lemma OtherTicket(s: State, t: State, n: nat, p: Phase, i: nat)
    requires Drained(s, n) && FrontChanged(s, t, n, p) && i < |s.tickets| && i != n
    ensures t.tickets[i] < |t.loads| && t.loads[t.tickets[i]] == s.loads[s.tickets[i]] && TicketHolds(s, n, i)
  {
  }

  lemma OthersUnqueued(s: State, t: State, n: nat, p: Phase)
    requires Drained(s, n) && FrontChanged(s, t, n, p)
    ensures forall x :: 0 <= x < |t.loads| && x !in t.tickets ==> Unqueued(t.loads[x].phase)
  {
    assert s.tickets[n] in s.tickets;
  }

  lemma FrontInside(s: State, t: State, n: nat, p: Phase)
    requires Drained(s, n) && FrontChanged(s, t, n, p) && p.Inside? && t.released == s.released
    ensures Drained(t, n)
  {
    OthersUnqueued(s, t, n, p);
    forall i | 0 <= i < |t.tickets| ensures TicketHolds(t, n, i) {
      hide Drained;
      if i != n { OtherTicket(s, t, n, p, i); }
    }
  }

  lemma FrontSettles(s: State, t: State, n: nat, p: Phase)
    requires Drained(s, n) && FrontChanged(s, t, n, p) && p.Settled? && t.released == s.released + {s.tickets[n]}
    ensures Drained(t, n + 1)
  {
    OthersUnqueued(s, t, n, p);
    var m := n + 1;
    forall i | 0 <= i < |t.tickets| ensures TicketHolds(t, m, i) {
      hide Drained;
      if i != n { OtherTicket(s, t, n, p, i); }
    }
    assert s.tickets[..m] == s.tickets[..n] + [s.tickets[n]];
    assert SetOf(s.tickets[..m]) == SetOf(s.tickets[..n]) + {s.tickets[n]};
  }

  /** Behind the front nobody is inside. */
  lemma NextWaits(s: State, n: nat)
    requires Drained(s, n) && n + 1 < |s.tickets|
    ensures s.tickets[n + 1] < |s.loads| && s.loads[s.tickets[n + 1]].phase.Waiting? && s.tickets[n + 1] != s.tickets[n]
  {
    assert TicketHolds(s, n, n + 1);
  }

  lemma EnterKept(s: State, original: EnvVars, n: nat, load: nat)
    requires Drained(s, n) && EnvHolds(s, original, n) && MayEnter(s, load)
    ensures
      var t := Next(s, Enter(load));
      exists k: nat :: Drained(t, k) && EnvHolds(t, original, k)
  {
    hide Drained;
    FrontOnly(s, n, load);
    var t := Next(s, Enter(load));
    if t.loads[load].phase.Inside? {
      FrontInside(s, t, n, t.loads[load].phase);
      assert Drained(t, n) && EnvHolds(t, original, n);
    } else {
      FrontSettles(s, t, n, t.loads[load].phase);
      if n + 1 < |s.tickets| { NextWaits(s, n); }
      assert Drained(t, n + 1) && EnvHolds(t, original, n + 1);
    }
  }

  lemma LeaveKept(s: State, original: EnvVars, n: nat, load: nat, ok: bool)
    requires Drained(s, n) && EnvHolds(s, original, n) && load < |s.loads| && s.loads[load].phase.Inside?
    ensures
      var t := Next(s, Leave(load, ok));
      exists k: nat :: Drained(t, k) && EnvHolds(t, original, k)
  {
    hide Drained;
    FrontOnly(s, n, load);
    var t := Next(s, Leave(load, ok));
    FrontSettles(s, t, n, Settled(ok));
    if n + 1 < |s.tickets| { NextWaits(s, n); }
    assert Drained(t, n + 1) && EnvHolds(t, original, n + 1);
  }

  lemma StepKept(s: State, a: Step, original: EnvVars)
    requires Inv(s, original)
    ensures Inv(Next(s, a), original)
  {
    hide Drained, EnvHolds, MemoHolds, Next;
    var n: nat :| Drained(s, n) && EnvHolds(s, original, n);
    MemoKept(s, a);
    QueueKept(s, a, original, n);
  }

  lemma QueueKept(s: State, a: Step, original: EnvVars, n: nat)
    requires Drained(s, n) && EnvHolds(s, original, n)
    ensures exists k: nat :: Drained(Next(s, a), k) && EnvHolds(Next(s, a), original, k)
  {
    hide Drained, EnvHolds;
    match a
    case Acquire(r) => AcquireKept(s, original, n, r);
    case Imported(load, ok) => ImportedKept(s, original, n, load, ok);
    case Enter(load) =>
      if MayEnter(s, load) { EnterKept(s, original, n, load); } else { assert Next(s, a) == s; }
    case Leave(load, ok) =>
      if load < |s.loads| && s.loads[load].phase.Inside? { LeaveKept(s, original, n, load, ok); }
      else { assert Next(s, a) == s; }
  }

  function Stepper(): (State, Step) -> State { (s: State, a: Step) => Next(s, a) }

  function Reached(env: EnvVars, steps: seq<Step>): State { RunSteps(Stepper(), Start(env), steps) }

  lemma ReachedInv(env: EnvVars, steps: seq<Step>)
    ensures Inv(Reached(env, steps), env)
  {
    hide Next, Inv;
    var inv := (s: State) => Inv(s, env);
    assert inv(Start(env)) by { StartInv(env); }
    forall s, a | inv(s) ensures inv(Stepper()(s, a)) { StepKept(s, a, env); }
    RunInvariant(Stepper(), Start(env), steps, inv, (a: Step) => true);
  }

  lemma StartInv(env: EnvVars)
    ensures Inv(Start(env), env)
  {
    assert Drained(Start(env), 0) && EnvHolds(Start(env), env, 0);
  }

  // ----- theorems -----

  /** However loads arrive, succeed and fail, no two are ever inside together. */
  lemma MutualExclusion(env: EnvVars, steps: seq<Step>, a: nat, b: nat)
    requires a < |Reached(env, steps).loads| && b < |Reached(env, steps).loads|
    requires Reached(env, steps).loads[a].phase.Inside? && Reached(env, steps).loads[b].phase.Inside?
    ensures a == b
  {
    hide Drained, EnvHolds, Reached;
    ReachedInv(env, steps);
    var s := Reached(env, steps);
    var n: nat :| Drained(s, n) && EnvHolds(s, env, n);
    FrontOnly(s, n, a);
    FrontOnly(s, n, b);
  }

  /** Whenever no load is inside, the environment is what it was before the first load. */
  lemma EnvironmentRestored(env: EnvVars, steps: seq<Step>)
    requires forall x :: 0 <= x < |Reached(env, steps).loads| ==> !Reached(env, steps).loads[x].phase.Inside?
    ensures Reached(env, steps).env == env
  {
    hide Drained, Reached;
    ReachedInv(env, steps);
    var s := Reached(env, steps);
    var n: nat :| Drained(s, n) && EnvHolds(s, env, n);
  }

  /** A load that is inside sees the original environment with only its own change. */
  lemma InsideSeesOwnEnvironment(env: EnvVars, steps: seq<Step>, a: nat)
    requires a < |Reached(env, steps).loads| && Reached(env, steps).loads[a].phase.Inside?
    ensures
      var s := Reached(env, steps);
      var r := s.loads[a].request;
      && s.env == Borrowed(env, r)
      && (r.allowDownload ==>
            s.env.remotePathTemplate == "{model}/resolve/" + r.revision + "/" && s.env.allowRemoteModels == env.allowRemoteModels)
      && (!r.allowDownload ==> s.env.remotePathTemplate == env.remotePathTemplate && !s.env.allowRemoteModels)
  {
    hide Drained, Reached;
    ReachedInv(env, steps);
    var s := Reached(env, steps);
    var n: nat :| Drained(s, n) && EnvHolds(s, env, n);
    FrontOnly(s, n, a);
  }

  /** A load whose turn it is gets inside unless it may neither download nor resolve its directory; then it fails at once. */
  lemma EntersIff(s: State, load: nat)
    requires MayEnter(s, load)
    ensures
      var r, t := s.loads[load].request, Next(s, Enter(load));
      && |t.loads| == |s.loads| && t.tail == s.tail && t.memo == s.memo && t.tickets == s.tickets
      && (forall x :: 0 <= x < |s.loads| && x != load ==> t.loads[x] == s.loads[x])
      && t.loads[load].request == r
      && if r.allowDownload || r.directorySafe then
           t.loads[load].phase == Inside(s.env) && t.released == s.released
         else
           t.loads[load].phase == Settled(false) && t.released == s.released + {load} && t.env == s.env
  {
  }

  /** First come, first served: a load gets inside only after every load that queued up before it was released. */
  lemma ArrivalOrder(env: EnvVars, steps: seq<Step>, i: nat, j: nat)
    requires
      var s := Reached(env, steps);
      i < j < |s.tickets| && s.tickets[j] < |s.loads| && !s.loads[s.tickets[j]].phase.Waiting?
    ensures
      var s := Reached(env, steps);
      s.tickets[i] in s.released && s.tickets[i] < |s.loads| && s.loads[s.tickets[i]].phase.Settled?
  {
    hide EnvHolds, Reached;
    ReachedInv(env, steps);
    var s := Reached(env, steps);
    var n: nat :| Drained(s, n) && EnvHolds(s, env, n);
    assert TicketHolds(s, n, j) && TicketHolds(s, n, i);
    assert s.tickets[..n][i] == s.tickets[i];
  }

  /** The queued loads that have not been released. */
  function Outstanding(s: State): set<nat> { set x | x in s.tickets && x !in s.released }

  /** The load that is inside can leave, which releases it; or this load can enter. */
  ghost predicate CanMove(s: State, load: nat) {
    && load < |s.loads| && load in Outstanding(s)
    && (MayEnter(s, load)
        || (s.loads[load].phase.Inside?
            && forall ok :: Outstanding(Next(s, Leave(load, ok))) == Outstanding(s) - {load}))
  }

  /** The lock never deadlocks: while any load is queued and not released, one of them can move. */
  lemma NeverDeadlocks(env: EnvVars, steps: seq<Step>)
    requires Outstanding(Reached(env, steps)) != {}
    ensures exists load :: CanMove(Reached(env, steps), load)
  {
    hide EnvHolds, Reached, CanMove;
    ReachedInv(env, steps);
    var s := Reached(env, steps);
    var n: nat :| Drained(s, n) && EnvHolds(s, env, n);
    SomeoneWaits(s, n);
    FrontCanMove(s, n);
  }

  lemma SomeoneWaits(s: State, n: nat)
    requires Drained(s, n) && Outstanding(s) != {}
    ensures n < |s.tickets|
  {
    hide Drained;
    var x :| x in Outstanding(s);
    var i := TicketIndex(s, n, x);
  }

  lemma FrontCanMove(s: State, n: nat)
    requires Drained(s, n) && n < |s.tickets|
    ensures CanMove(s, s.tickets[n])
  {
    var load := s.tickets[n];
    assert TicketHolds(s, n, n);
    assert load in s.tickets;
    var i := TicketIndex(s, n, load);
    SameTicket(s, n, i, n);
    if n > 0 { assert s.tickets[..n][n - 1] == s.tickets[n - 1]; }
  }

  /** One load per key: every later request for the key joins it or is refused for its budget, also after a failure. */
  lemma OneLoadPerKey(env: EnvVars, steps: seq<Step>, a: nat, b: nat, r: Request)
    requires a < |Reached(env, steps).loads| && b < |Reached(env, steps).loads|
    ensures
      var s := Reached(env, steps);
      && (s.loads[a].request.key == s.loads[b].request.key ==> a == b)
      && (r.key == s.loads[a].request.key ==>
            Next(s, Acquire(r)) == s
            && AcquireAnswer(s, r) == (if r.maxTokens == s.loads[a].request.maxTokens then Pipeline(a) else BudgetConflict))
  {
    hide Drained, EnvHolds, Reached;
    ReachedInv(env, steps);
  }
}
