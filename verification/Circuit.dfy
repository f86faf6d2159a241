/**
 The cooldown circuit of src/systemsense/orchestration/circuit_breaker.py and its use by the probe
 runner of src/systemsense/orchestration/probes.py. Times are integers.
 */
module Circuit {
  import opened Results

  datatype CircuitState = Closed | Open | HalfOpen

  datatype Breaker = Breaker(state: CircuitState, failureCount: nat, openedUntil: Option<int>)

  datatype Limits = Limits(threshold: nat, cooldown: int)

  const INITIAL := Breaker(Closed, 0, None)

  class CircuitBreaker {
    const limits: Limits
    var state: CircuitState
    var failureCount: nat
    var openedUntil: Option<int>
    ghost var history: seq<Event>  // every call so far

    ghost predicate Valid()
      reads this
    {
      limits.threshold >= 1 && limits.cooldown > 0 && View() == After(limits, history)
    }

    ghost function View(): Breaker
      reads this
    {
      Breaker(state, failureCount, openedUntil)
    }

    constructor (limits: Limits)
      requires limits.threshold >= 1 && limits.cooldown > 0
      ensures Valid() && this.limits == limits && history == []
    {
      this.limits := limits;
      state, failureCount, openedUntil, history := Closed, 0, None, [];
    }

    /** Grants exactly what the history of calls says. */
    method Allow(at: int) returns (granted: bool)
      requires Valid()
      modifies this
      ensures Valid() && history == old(history) + [Event.Allow(at)]
      ensures granted == Granted(limits, old(history), at)
    {
      HistoryDecides(limits, history);
      history := history + [Event.Allow(at)];
      AfterAppend(limits, history);
      if state == Closed {
        return true;
      }
      if state == HalfOpen {
        return false;
      }
      if at < openedUntil.value {
        return false;
      }
      state := HalfOpen;
      return true;
    }

    method RecordFailure(at: int)
      requires Valid()
      modifies this
      ensures Valid() && history == old(history) + [Failure(at)]
    {
      history := history + [Failure(at)];
      AfterAppend(limits, history);
      failureCount := failureCount + 1;
      if state == HalfOpen || failureCount >= limits.threshold {
        state := Open;
        openedUntil := Some(at + limits.cooldown);
      }
    }

    method RecordSuccess()
      requires Valid()
      modifies this
      ensures Valid() && history == old(history) + [Success]
    {
      history := history + [Success];
      AfterAppend(limits, history);
      failureCount, state, openedUntil := 0, Closed, None;
    }
  }

  // ---- The automaton over a history of calls ----

  datatype Event = Allow(at: int) | Failure(at: int) | Success

  function Step(limits: Limits, b: Breaker, e: Event): Breaker {
    match e
    case Allow(at) => if b.state == Open && b.openedUntil.Some? && at >= b.openedUntil.value then b.(state := HalfOpen) else b
    case Failure(at) =>
      if b.state == HalfOpen || b.failureCount + 1 >= limits.threshold
      then Breaker(Open, b.failureCount + 1, Some(at + limits.cooldown))
      else b.(failureCount := b.failureCount + 1)
    case Success => INITIAL
  }

  function After(limits: Limits, history: seq<Event>): Breaker {
    if |history| == 0 then INITIAL else Step(limits, After(limits, history[..|history| - 1]), history[|history| - 1])
  }

  lemma {:induction false} AfterAppend(limits: Limits, history: seq<Event>)
    requires |history| > 0
    ensures After(limits, history) == Step(limits, After(limits, history[..|history| - 1]), history[|history| - 1])
    ensures forall e, before :: history == before + [e] ==> After(limits, history) == Step(limits, After(limits, before), e)
  {
    forall e, before | history == before + [e]
      ensures After(limits, history) == Step(limits, After(limits, before), e)
    {
      assert history[..|history| - 1] == before;
    }
  }

  // ---- What a history means, without the automaton ----

  /** Failures since the last success. */
  function Failures(history: seq<Event>): nat {
    if |history| == 0 then 0 else
      var last := history[|history| - 1];
      if last.Success? then 0 else Failures(history[..|history| - 1]) + if last.Failure? then 1 else 0
  }

  /** The time of the last failure since the last success. */
  function LastFailure(history: seq<Event>): Option<int> {
    if |history| == 0 then None else
      match history[|history| - 1]
      case Success => None
      case Failure(at) => Some(at)
      case Allow(_) => LastFailure(history[..|history| - 1])
  }

  /** A trial was asked for at or after the cooldown of the last failure, and nothing was recorded since. */
  function TrialPending(limits: Limits, history: seq<Event>): bool {
    |history| > 0 && history[|history| - 1].Allow?
    && var before := history[..|history| - 1];
       (TrialPending(limits, before)
        || (Failures(before) >= limits.threshold && LastFailure(before).Some?
            && history[|history| - 1].at >= LastFailure(before).value + limits.cooldown))
  }

  /** Whether a call at time `at` after this history is let through. */
  function Granted(limits: Limits, history: seq<Event>, at: int): bool {
    Failures(history) < limits.threshold
    || (!TrialPending(limits, history) && LastFailure(history).Some? && at >= LastFailure(history).value + limits.cooldown)
  }

  /**
   Main result: the state is a function of the failures since the last success, the time of the last
   one, and whether a trial is pending; in particular the circuit is closed exactly when there were
   fewer than `threshold` failures since the last success.
   */
  lemma {:induction false} HistoryDecides(limits: Limits, history: seq<Event>)
    requires limits.threshold >= 1
    ensures var b := After(limits, history);
      && b.failureCount == Failures(history)
      && (b.state == Closed <==> Failures(history) < limits.threshold)
      && (b.state == HalfOpen <==> TrialPending(limits, history))
      && (b.state != Closed ==> LastFailure(history).Some?)
      && (b.state != Closed ==> b.openedUntil == Some(LastFailure(history).value + limits.cooldown))
      && (b.state == Closed ==> b.openedUntil == None)
  {
    if |history| > 0 {
      HistoryDecides(limits, history[..|history| - 1]);
    }
  }

  // ---- The runner ----

  datatype RunStatus = RunOk | Denied | Unavailable | FailedRun | TimedOut | Truncated

  datatype WorkerStatus = WorkerOk | WorkerDenied | WorkerFailed | WorkerTimedOut

  datatype Observation = Observation(summary: string, serializedBytes: nat, recordCount: nat)

  /** What the executor or the in-process handler would answer if it were called. */
  datatype Execution =
    | Worker(status: WorkerStatus, error: Option<string>, evidence: Option<Result<Observation, string>>)
    | Handler(outcome: Result<Observation, string>)

  datatype Definition = Definition(maxOutputBytes: nat, maxRecords: nat)

  datatype ProbeRun = ProbeRun(probeId: string, status: RunStatus, observation: Option<Observation>, error: Option<string>)

  function LimitedRun(probeId: string, definition: Definition, o: Observation): ProbeRun {
    if o.serializedBytes > definition.maxOutputBytes || o.recordCount > definition.maxRecords
    then ProbeRun(probeId, Truncated, None, Some("probe output exceeded registered limits"))
    else ProbeRun(probeId, RunOk, Some(o), None)
  }

  /** The result of a run that was let through. */
  function ExecutedRun(probeId: string, definition: Definition, execution: Execution): ProbeRun {
    match execution
    case Worker(WorkerDenied, error, _) => ProbeRun(probeId, Denied, None, error)
    case Worker(WorkerFailed, error, _) => ProbeRun(probeId, FailedRun, None, error)
    case Worker(WorkerTimedOut, error, _) => ProbeRun(probeId, TimedOut, None, error)
    case Worker(WorkerOk, _, None) => ProbeRun(probeId, FailedRun, None, Some("worker returned no evidence"))
    case Worker(WorkerOk, _, Some(Err(e))) => ProbeRun(probeId, FailedRun, None, Some("worker evidence validation failed: " + e))
    case Worker(WorkerOk, _, Some(Ok(o))) => LimitedRun(probeId, definition, o)
    case Handler(Err(e)) => ProbeRun(probeId, FailedRun, None, Some(e))
    case Handler(Ok(o)) => LimitedRun(probeId, definition, o)
  }

  /** What a handler or an accepted worker reply observed. */
  ghost predicate Observed(execution: Execution, o: Observation) {
    execution == Handler(Ok(o)) || (execution.Worker? && execution.status == WorkerOk && execution.evidence == Some(Ok(o)))
  }

  ghost predicate WithinLimits(definition: Definition, o: Observation) {
    o.serializedBytes <= definition.maxOutputBytes && o.recordCount <= definition.maxRecords
  }

  /** Main result: what each status of a run that was let through says about it. */
  lemma RunMeans(probeId: string, definition: Definition, execution: Execution)
    ensures var run := ExecutedRun(probeId, definition, execution);
      && run.probeId == probeId
      && (run.observation.Some? <==> run.status == RunOk) && (run.status != RunOk && execution.Handler? ==> run.error.Some?)
      && (forall o :: run.observation == Some(o) <==> Observed(execution, o) && WithinLimits(definition, o))
      && (run.status == Truncated <==> exists o :: Observed(execution, o) && !WithinLimits(definition, o))
      && (run.status == Denied <==> execution.Worker? && execution.status == WorkerDenied)
      && (run.status == TimedOut <==> execution.Worker? && execution.status == WorkerTimedOut)
      && (run.status == FailedRun <==>
            !(execution.Worker? && execution.status in {WorkerDenied, WorkerTimedOut}) && forall o :: !Observed(execution, o))
      && run.status != Unavailable
  {
    var run := ExecutedRun(probeId, definition, execution);
    match execution
    case Worker(WorkerOk, _, Some(Ok(o))) => assert Observed(execution, o);
    case Handler(Ok(o)) => assert Observed(execution, o);
    case _ =>
  }

  ghost predicate Injective(circuits: map<string, CircuitBreaker>) {
    forall p, q :: p in circuits && q in circuits && p != q ==> circuits[p] != circuits[q]
  }

  method BuildCircuits(probeIds: set<string>, limits: Limits) returns (built: map<string, CircuitBreaker>)
    requires limits.threshold >= 1 && limits.cooldown > 0
    ensures built.Keys == probeIds && Injective(built)
    ensures forall p :: p in built ==> fresh(built[p]) && built[p].Valid() && built[p].limits == limits && built[p].history == []
  {
    built := map[];
    var left := probeIds;
    while left != {}
      invariant left <= probeIds && built.Keys == probeIds - left && Injective(built)
      invariant forall p :: p in built ==>
        fresh(built[p]) && built[p].Valid() && built[p].limits == limits && built[p].history == []
      decreases |left|
    {
      var p :| p in left;
      var breaker := new CircuitBreaker(limits);
      built := built[p := breaker];
      left := left - {p};
    }
  }

  /** The part of a run behind the policy check, on the probe's own circuit. */
  method RunGuarded(circuit: CircuitBreaker, probeId: string, definition: Definition, at: int, execution: Execution, finished: int)
    returns (run: ProbeRun, ran: bool)
    requires circuit.Valid()
    modifies circuit
    ensures circuit.Valid()
    ensures var before := old(circuit.history);
      && ran == Granted(circuit.limits, before, at)
      && circuit.history == before + RunEvents(circuit.limits, before,
           Attempt(at, true, ExecutedRun(probeId, definition, execution).status, finished))
    ensures run == if ran then ExecutedRun(probeId, definition, execution)
                   else ProbeRun(probeId, Unavailable, None, Some("probe circuit is open"))
  {
    var granted := circuit.Allow(at);
    if !granted {
      return ProbeRun(probeId, Unavailable, None, Some("probe circuit is open")), false;
    }
    run, ran := ExecutedRun(probeId, definition, execution), true;
    if run.status == RunOk {
      circuit.RecordSuccess();
    } else if run.status != Denied {
      circuit.RecordFailure(finished);
    }
  }

  /** The circuit has seen exactly the calls of these runs. */
  ghost predicate Tracks(circuit: CircuitBreaker, limits: Limits, attempts: seq<Attempt>)
    reads circuit
  {
    circuit.Valid() && circuit.limits == limits && circuit.history == Calls(limits, attempts)
  }

  lemma TracksLimits(circuit: CircuitBreaker, limits: Limits, attempts: seq<Attempt>)
    requires Tracks(circuit, limits, attempts)
    ensures circuit.limits == limits
  {
  }

  /** A run as the circuit's history records it. */
  ghost function AttemptOf(probeId: string, definition: Definition, denial: Option<string>, at: int, execution: Execution, finished: int): Attempt {
    Attempt(at, denial.None?, ExecutedRun(probeId, definition, execution).status, finished)
  }

  /** What the caller of a registered probe gets. */
  function Answer(probeId: string, definition: Definition, denial: Option<string>, ran: bool, execution: Execution): ProbeRun {
    if denial.Some? then ProbeRun(probeId, Denied, None, denial)
    else if ran then ExecutedRun(probeId, definition, execution)
    else ProbeRun(probeId, Unavailable, None, Some("probe circuit is open"))
  }

  /** One run of a registered probe on its own circuit. */
  method RunRegistered(circuit: CircuitBreaker, ghost before: seq<Attempt>, probeId: string, definition: Definition,
                       denial: Option<string>, at: int, execution: Execution, finished: int)
    returns (run: ProbeRun, ran: bool)
    requires Tracks(circuit, circuit.limits, before)
    modifies circuit
    ensures var a := AttemptOf(probeId, definition, denial, at, execution, finished);
      && Tracks(circuit, circuit.limits, before + [a])
      && ran == Ran(circuit.limits, before, a)
      && run == Answer(probeId, definition, denial, ran, execution)
  {
    CallsAppend(circuit.limits, before, AttemptOf(probeId, definition, denial, at, execution, finished));
    hide After, Granted, ExecutedRun;
    if denial.Some? {
      return ProbeRun(probeId, Denied, None, denial), false;
    }
    run, ran := RunGuarded(circuit, probeId, definition, at, execution, finished);
  }

  class ProbeRunner {
    const definitions: map<string, Definition>
    const circuits: map<string, CircuitBreaker>
    const limits: Limits
    ghost var attempts: map<string, seq<Attempt>>  // every run of each registered probe so far

    ghost predicate Valid()
      reads this, circuits.Values
    {
      && limits.threshold >= 1
      && circuits.Keys == definitions.Keys == attempts.Keys
      && Injective(circuits)
      && (forall p :: p in circuits ==> Tracks(circuits[p], limits, attempts[p]))
    }

    constructor (definitions: map<string, Definition>, limits: Limits)
      requires limits.threshold >= 1 && limits.cooldown > 0
      ensures Valid() && this.definitions == definitions && this.limits == limits
      ensures forall p :: p in attempts ==> attempts[p] == []
    {
      var built := BuildCircuits(definitions.Keys, limits);
      this.definitions, circuits, this.limits := definitions, built, limits;
      attempts := map p | p in definitions :: [];
    }

    /**
     `denial` is the policy's refusal, `at` the clock read before the run and `finished` the one read
     when a failure is recorded. `ran` tells whether the executor or handler was called. The frame is
     this probe's circuit, so the circuits of other probes are untouched.
     */
    method Run(probeId: string, denial: Option<string>, at: int, execution: Execution, finished: int)
      returns (run: ProbeRun, ran: bool)
      requires Valid()
      modifies `attempts, if probeId in circuits then {circuits[probeId]} else {}
      ensures Valid()
      ensures probeId !in definitions ==> run.status == Denied && !ran && attempts == old(attempts)
      ensures probeId in definitions ==>
        var a := AttemptOf(probeId, definitions[probeId], denial, at, execution, finished);
        && attempts == old(attempts)[probeId := old(attempts)[probeId] + [a]]
        && ran == Ran(limits, old(attempts)[probeId], a)
        && run == Answer(probeId, definitions[probeId], denial, ran, execution)
    {
      if probeId !in definitions {
        return ProbeRun(probeId, Denied, None, Some("unknown probe: " + probeId)), false;
      }
      hide Tracks, Ran, ExecutedRun, Answer, AttemptOf;
      ghost var before := attempts[probeId];
      ghost var a := AttemptOf(probeId, definitions[probeId], denial, at, execution, finished);
      assert circuits[probeId].limits == limits by { TracksLimits(circuits[probeId], limits, before); }
      run, ran := RunRegistered(circuits[probeId], before, probeId, definitions[probeId], denial, at, execution, finished);
      attempts := attempts[probeId := before + [a]];
      forall p | p in circuits ensures Tracks(circuits[p], limits, attempts[p]) {
        assert p == probeId || circuits[p] != circuits[probeId];
      }
      assert circuits.Keys == definitions.Keys == attempts.Keys;
    }
  }

  // ---- Whole histories of one probe ----

  /** One `run` of a probe: when, whether the policy authorized it, and how it ends if it is let through. */
  datatype Attempt = Attempt(at: int, authorized: bool, status: RunStatus, finished: int)

  /** The calls on the circuit that one run makes. */
  function RunEvents(limits: Limits, history: seq<Event>, a: Attempt): seq<Event> {
    if !a.authorized then []
    else if !Granted(limits, history, a.at) then [Allow(a.at)]
    else if a.status == RunOk then [Allow(a.at), Success]
    else if a.status == Denied then [Allow(a.at)]
    else [Allow(a.at), Failure(a.finished)]
  }

  function Calls(limits: Limits, attempts: seq<Attempt>): seq<Event> {
    if |attempts| == 0 then [] else
      var before := Calls(limits, attempts[..|attempts| - 1]);
      before + RunEvents(limits, before, attempts[|attempts| - 1])
  }

  function BreakerAfter(limits: Limits, attempts: seq<Attempt>): Breaker { After(limits, Calls(limits, attempts)) }

  lemma CallsAppend(limits: Limits, before: seq<Attempt>, a: Attempt)
    ensures Calls(limits, before + [a]) == Calls(limits, before) + RunEvents(limits, Calls(limits, before), a)
  {
    assert (before + [a])[..|before|] == before;
  }

  /** Whether an attempt made after the attempts `before` calls the handler. */
  function Ran(limits: Limits, before: seq<Attempt>, a: Attempt): bool {
    a.authorized && Granted(limits, Calls(limits, before), a.at)
  }

  predicate CountsAsFailure(status: RunStatus) { status != RunOk && status != Denied }

  /** The same question asked of the circuit's state. */
  predicate LetsThrough(b: Breaker, a: Attempt) {
    a.authorized && (b.state == Closed || (b.state == Open && b.openedUntil.Some? && a.at >= b.openedUntil.value))
  }

  function Try(limits: Limits, b: Breaker, a: Attempt): Breaker {
    if !LetsThrough(b, a) then b else
      var allowed := if b.state == Open then b.(state := HalfOpen) else b;
      if a.status == RunOk then INITIAL
      else if a.status == Denied then allowed
      else Step(limits, allowed, Failure(a.finished))
  }

  lemma {:induction false} Extend(limits: Limits, history: seq<Event>, a: Event, b: Event)
    ensures After(limits, history + [a]) == Step(limits, After(limits, history), a)
    ensures After(limits, history + [a, b]) == Step(limits, Step(limits, After(limits, history), a), b)
  {
    assert (history + [a])[..|history|] == history;
    assert (history + [a, b])[..|history| + 1] == history + [a];
  }

  lemma GrantedIs(limits: Limits, history: seq<Event>, a: Attempt)
    requires limits.threshold >= 1
    ensures a.authorized && Granted(limits, history, a.at) <==> LetsThrough(After(limits, history), a)
  {
    HistoryDecides(limits, history);
  }

  lemma StepsAreTry(limits: Limits, b: Breaker, a: Attempt)
    ensures var allowed := Step(limits, b, Allow(a.at));
      Try(limits, b, a) ==
        if !LetsThrough(b, a) then b
        else if a.status == RunOk then Step(limits, allowed, Success)
        else if a.status == Denied then allowed
        else Step(limits, allowed, Failure(a.finished))
    ensures a.authorized && !LetsThrough(b, a) ==> Step(limits, b, Allow(a.at)) == b
  {
  }

  lemma CallsAreTry(limits: Limits, history: seq<Event>, a: Attempt)
    requires limits.threshold >= 1
    ensures After(limits, history + RunEvents(limits, history, a)) == Try(limits, After(limits, history), a)
  {
    hide Granted, LetsThrough, Step, Try;
    GrantedIs(limits, history, a);
    StepsAreTry(limits, After(limits, history), a);
    Extend(limits, history, Allow(a.at), Success);
    Extend(limits, history, Allow(a.at), Failure(a.finished));
    assert history + [] == history;
  }

  /** One attempt, in terms of the state it finds. */
  lemma {:induction false} AttemptStep(limits: Limits, before: seq<Attempt>, a: Attempt)
    requires limits.threshold >= 1
    ensures BreakerAfter(limits, before + [a]) == Try(limits, BreakerAfter(limits, before), a)
    ensures Ran(limits, before, a) == LetsThrough(BreakerAfter(limits, before), a)
  {
    hide Granted, LetsThrough, RunEvents, Try;
    CallsAppend(limits, before, a);
    CallsAreTry(limits, Calls(limits, before), a);
    GrantedIs(limits, Calls(limits, before), a);
  }

  /**
   Main result: after the failure that opens (or reopens) the circuit, nothing runs before the
   cooldown has passed, and the first authorized attempt after it does run.
   */
  lemma CooldownHolds(limits: Limits, before: seq<Attempt>, last: Attempt, gap: seq<Attempt>, trial: Attempt)
    requires limits.threshold >= 1
    requires Ran(limits, before, last) && CountsAsFailure(last.status)
    requires BreakerAfter(limits, before + [last]).state == Open
    requires forall i :: 0 <= i < |gap| && gap[i].authorized ==> gap[i].at < last.finished + limits.cooldown
    ensures BreakerAfter(limits, before + [last] + gap) == BreakerAfter(limits, before + [last])
    ensures forall i :: 0 <= i < |gap| ==> !Ran(limits, before + [last] + gap[..i], gap[i])
    ensures Ran(limits, before + [last] + gap, trial) <==> trial.authorized && trial.at >= last.finished + limits.cooldown
  {
    AttemptStep(limits, before, last);
    hide BreakerAfter, Ran;
    Refused(limits, before + [last], gap);
    AttemptStep(limits, before + [last] + gap, trial);
  }

  /** Attempts that the circuit refuses leave it as it is, so it goes on refusing. */
  lemma {:induction false} Refused(limits: Limits, before: seq<Attempt>, later: seq<Attempt>)
    requires limits.threshold >= 1
    requires forall i :: 0 <= i < |later| ==> !LetsThrough(BreakerAfter(limits, before), later[i])
    ensures BreakerAfter(limits, before + later) == BreakerAfter(limits, before)
    ensures forall i :: 0 <= i < |later| ==> !Ran(limits, before + later[..i], later[i])
  {
    hide BreakerAfter, Ran, LetsThrough;
    if |later| == 0 {
      assert before + later == before;
    } else {
      var n := |later| - 1;
      Refused(limits, before, later[..n]);
      AttemptStep(limits, before + later[..n], later[n]);
      assert before + later == before + later[..n] + [later[n]];
      assert forall i :: 0 <= i < n ==> later[..n][..i] == later[..i] && later[..n][i] == later[i];
    }
  }

  /** How a trial, that is a run let through by an open circuit, leaves the circuit. */
  lemma {:induction false} TrialOutcome(limits: Limits, before: seq<Attempt>, trial: Attempt)
    requires limits.threshold >= 1
    requires BreakerAfter(limits, before).state == Open && Ran(limits, before, trial)
    ensures var b := BreakerAfter(limits, before + [trial]);
      && (trial.status == RunOk ==> b == INITIAL)
      && (CountsAsFailure(trial.status) ==> b.state == Open && b.openedUntil == Some(trial.finished + limits.cooldown))
      && (trial.status == Denied ==> b.state == HalfOpen)
  {
    AttemptStep(limits, before, trial);
  }

  /** Main result: a circuit left half-open never runs the probe again. */
  lemma HalfOpenIsStuck(limits: Limits, before: seq<Attempt>, later: seq<Attempt>)
    requires limits.threshold >= 1 && BreakerAfter(limits, before).state == HalfOpen
    ensures BreakerAfter(limits, before + later).state == HalfOpen
    ensures forall i :: 0 <= i < |later| ==> !Ran(limits, before + later[..i], later[i])
  {
    Refused(limits, before, later);
  }

  /** Attempt `i` was a trial that the worker refused. */
  ghost predicate DeniedTrial(limits: Limits, attempts: seq<Attempt>, i: nat)
    requires i < |attempts|
  {
    && Ran(limits, attempts[..i], attempts[i]) && attempts[i].status == Denied
    && BreakerAfter(limits, attempts[..i]).state == Open
  }

  lemma DeniedTrialPrefix(limits: Limits, attempts: seq<Attempt>, n: nat, i: nat)
    requires i < n <= |attempts|
    ensures DeniedTrial(limits, attempts[..n], i) <==> DeniedTrial(limits, attempts, i)
  {
    assert attempts[..n][..i] == attempts[..i];
  }

  lemma HalfOpenStep(limits: Limits, before: seq<Attempt>, a: Attempt)
    requires limits.threshold >= 1
    ensures BreakerAfter(limits, before + [a]).state == HalfOpen
       <==> BreakerAfter(limits, before).state == HalfOpen || DeniedTrial(limits, before + [a], |before|)
  {
    hide BreakerAfter, Ran;
    AttemptStep(limits, before, a);
    assert (before + [a])[..|before|] == before;
  }

  /** Main result: between runs the circuit is half-open exactly when some trial was refused by the worker. */
  lemma {:induction false} HalfOpenIffDeniedTrial(limits: Limits, attempts: seq<Attempt>)
    requires limits.threshold >= 1
    ensures BreakerAfter(limits, attempts).state == HalfOpen
       <==> exists i :: 0 <= i < |attempts| && DeniedTrial(limits, attempts, i)
  {
    if |attempts| > 0 {
      hide BreakerAfter, DeniedTrial;
      var n := |attempts| - 1;
      HalfOpenIffDeniedTrial(limits, attempts[..n]);
      assert attempts == attempts[..n] + [attempts[n]];
      HalfOpenStep(limits, attempts[..n], attempts[n]);
      forall i | 0 <= i < n ensures DeniedTrial(limits, attempts[..n], i) <==> DeniedTrial(limits, attempts, i) {
        DeniedTrialPrefix(limits, attempts, n, i);
      }
    }
  }

  /** It does happen, with an executor that fails a probe and later denies it: the circuit is then half-open. */
  lemma DeniedTrialHappens(limits: Limits) returns (attempts: seq<Attempt>)
    requires limits.threshold == 1
    ensures |attempts| == 2 && attempts[0].status == FailedRun && attempts[1].status == Denied
    ensures BreakerAfter(limits, attempts).state == HalfOpen
  {
    var failed := Attempt(0, true, FailedRun, 0);
    var denied := Attempt(limits.cooldown, true, Denied, limits.cooldown);
    attempts := [failed] + [denied];
    AttemptStep(limits, [], failed);
    assert [] + [failed] == [failed];
    AttemptStep(limits, [failed], denied);
  }

  /** The executor denies this probe always, or never. */
  ghost predicate DeniesAlwaysOrNever(attempts: seq<Attempt>) {
    (forall a :: a in attempts ==> a.status == Denied) || (forall a :: a in attempts ==> a.status != Denied)
  }

  lemma {:induction false} NothingFails(limits: Limits, attempts: seq<Attempt>)
    requires forall a :: a in attempts ==> a.status == Denied
    ensures FailedRuns(limits, attempts) == 0
  {
    if |attempts| > 0 {
      hide Ran;
      NothingFails(limits, attempts[..|attempts| - 1]);
      assert attempts[|attempts| - 1] in attempts;
    }
  }

  /** Main result: an executor that decides by the probe alone, as the one of the repository does, never leaves a circuit half-open. */
  lemma SteadyExecutorNeverSticks(limits: Limits, attempts: seq<Attempt>)
    requires limits.threshold >= 1 && DeniesAlwaysOrNever(attempts)
    ensures BreakerAfter(limits, attempts).state != HalfOpen
  {
    HalfOpenIffDeniedTrial(limits, attempts);
    forall i | 0 <= i < |attempts| ensures !DeniedTrial(limits, attempts, i) {
      assert attempts[i] in attempts;
      if attempts[i].status == Denied {
        NothingFails(limits, attempts[..i]);
        ClosedIffFewFailedRuns(limits, attempts[..i]);
      }
    }
  }

  /** Failed runs since the last run that ended OK. */
  function FailedRuns(limits: Limits, attempts: seq<Attempt>): nat {
    if |attempts| == 0 then 0 else
      var n := |attempts| - 1;
      var before := FailedRuns(limits, attempts[..n]);
      if !Ran(limits, attempts[..n], attempts[n]) then before
      else if attempts[n].status == RunOk then 0
      else if CountsAsFailure(attempts[n].status) then before + 1 else before
  }

  /** Main result: the circuit is closed exactly when fewer than `threshold` runs failed since the last OK run. */
  lemma {:induction false} ClosedIffFewFailedRuns(limits: Limits, attempts: seq<Attempt>)
    requires limits.threshold >= 1
    ensures BreakerAfter(limits, attempts).state == Closed <==> FailedRuns(limits, attempts) < limits.threshold
  {
    CountsFailedRuns(limits, attempts);
    HistoryDecides(limits, Calls(limits, attempts));
  }

  lemma TryCounts(limits: Limits, b: Breaker, a: Attempt)
    ensures Try(limits, b, a).failureCount ==
              if !LetsThrough(b, a) then b.failureCount
              else if a.status == RunOk then 0
              else if CountsAsFailure(a.status) then b.failureCount + 1 else b.failureCount
  {
  }

  lemma {:induction false} CountsFailedRuns(limits: Limits, attempts: seq<Attempt>)
    requires limits.threshold >= 1
    ensures BreakerAfter(limits, attempts).failureCount == FailedRuns(limits, attempts)
  {
    if |attempts| > 0 {
      hide BreakerAfter, Ran, Try, LetsThrough, CountsAsFailure;
      var n := |attempts| - 1;
      var before, a := attempts[..n], attempts[n];
      CountsFailedRuns(limits, before);
      assert attempts == before + [a];
      AttemptStep(limits, before, a);
      TryCounts(limits, BreakerAfter(limits, before), a);
      assert BreakerAfter(limits, attempts).failureCount == FailedRuns(limits, attempts);
    }
  }
}
