/**
 The circuit breaker around the external APIs: atomic counters from which the verdict is derived
 afresh on every call.
 */
module CircuitBreaker {
  import opened Arithmetic

  datatype State = Closed | Open | HalfOpen

  /** What the wrapped future returns; only `Unavailable` counts as a failure of the dependency. */
  datatype Outcome = Success | Unavailable | OtherError

  datatype CallResult = Rejected | Ran(outcome: Outcome)

  datatype Config = Config(threshold: nat, timeout: nat) {
    predicate Valid() { threshold >= 1 && timeout >= 1 }
  }

  /** The atomic fields. */
  datatype Counters = Counters(failures: nat, lastFailure: int, stored: State)

  // ---------- the breaker as a function of its counters ----------

  function Verdict(cfg: Config, c: Counters, now: int): State {
    if c.failures < cfg.threshold then Closed
    else if now - c.lastFailure >= cfg.timeout then HalfOpen
    else Open
  }

  function Checked(cfg: Config, c: Counters, now: int): Counters {
    var verdict := Verdict(cfg, c, now);
    if c.stored == verdict then c
    else Counters(if verdict == Closed then 0 else c.failures, c.lastFailure, verdict)
  }

  function Settled(c: Counters, outcome: Outcome, now: int): Counters {
    match outcome
    case Success => c.(failures := 0)
    case Unavailable => c.(failures := c.failures + 1, lastFailure := now)
    case OtherError => c
  }

  /** One sequential call: checked at `start`, the dependency's answer settled at `end`. */
  datatype Call = Call(start: int, end: int, outcome: Outcome)

  function Called(cfg: Config, c: Counters, call: Call): (Counters, CallResult) {
    var checked := Checked(cfg, c, call.start);
    if Verdict(cfg, c, call.start) == Open then (checked, Rejected)
    else (Settled(checked, call.outcome, call.end), Ran(call.outcome))
  }

  class CircuitBreaker {
    const threshold: nat
    const timeout: nat
    var failures: nat
    var lastFailureTime: int
    var state: State

    constructor (threshold: nat, timeout: nat)
      ensures this.threshold == threshold && this.timeout == timeout
      ensures Fields() == Initial()
    {
      this.threshold := threshold;
      this.timeout := timeout;
      failures, lastFailureTime, state := 0, 0, Closed;
    }

    function Limits(): Config { Config(threshold, timeout) }

    function Fields(): Counters
      reads this
    {
      Counters(failures, lastFailureTime, state)
    }

    method CheckState(now: int) returns (final: State)
      modifies this
      ensures final == Verdict(Limits(), old(Fields()), now)
      ensures Fields() == Checked(Limits(), old(Fields()), now)
    {
      var oldState, lastError, fails := state, lastFailureTime, failures;
      if fails < threshold {
        final := Closed;
      } else if now - lastError >= timeout {
        final := HalfOpen;
      } else {
        final := Open;
      }
      if oldState != final {
        state := final;
        if final == Closed {
          failures := 0;
        }
      }
    }

    method Reset()
      modifies this`failures
      ensures Fields() == Settled(old(Fields()), Success, 0)
    {
      failures := 0;
    }

    method RecordFailure(now: int)
      modifies this`failures, this`lastFailureTime
      ensures Fields() == Settled(old(Fields()), Unavailable, now)
    {
      failures := failures + 1;
      lastFailureTime := now;
    }

    /** `outcome` is what the wrapped future returns if it is started at `start`, answering at `end`. */
    method Run(start: int, end: int, outcome: Outcome) returns (result: CallResult)
      modifies this
      ensures (Fields(), result) == Called(Limits(), old(Fields()), Call(start, end, outcome))
    {
      var verdict := CheckState(start);
      if verdict == Open {
        return Rejected;
      }
      match outcome {
        case Success => Reset();
        case Unavailable => RecordFailure(end);
        case OtherError =>
      }
      result := Ran(outcome);
    }
  }

  function Initial(): Counters { Counters(0, 0, Closed) }

  // ---------- the explicit machine ----------

  /** The textbook breaker: its state is stored, and only `OpenSince` looks at the clock. */
  datatype Machine = ClosedWith(failures: nat) | OpenSince(since: int) | Probing

  function Arrive(cfg: Config, m: Machine, now: int): Machine {
    if m.OpenSince? && now - m.since >= cfg.timeout then Probing else m
  }

  function MachineCall(cfg: Config, m: Machine, call: Call): (Machine, CallResult) {
    var at := Arrive(cfg, m, call.start);
    if at.OpenSince? then (at, Rejected)
    else
      var next :=
        match call.outcome
        case Success => ClosedWith(0)
        case OtherError => at
        case Unavailable =>
          if at.ClosedWith? && at.failures + 1 < cfg.threshold then ClosedWith(at.failures + 1)
          else OpenSince(call.end);
      (next, Ran(call.outcome))
  }

  /** A clock that never runs backwards, over calls made one after another. */
  predicate Sequential(calls: seq<Call>, since: int)
    decreases |calls|
  {
    calls == [] || (since <= calls[0].start <= calls[0].end && Sequential(calls[1..], calls[0].end))
  }

  function BreakerRun(cfg: Config, c: Counters, calls: seq<Call>): (results: seq<CallResult>)
    ensures |results| == |calls|
    decreases |calls|
  {
    if calls == [] then [] else
      var (next, result) := Called(cfg, c, calls[0]);
      [result] + BreakerRun(cfg, next, calls[1..])
  }

  function MachineRun(cfg: Config, m: Machine, calls: seq<Call>): (results: seq<CallResult>)
    ensures |results| == |calls|
    decreases |calls|
  {
    if calls == [] then [] else
      var (next, result) := MachineCall(cfg, m, calls[0]);
      [result] + MachineRun(cfg, next, calls[1..])
  }

  /** A stored state other than Closed means the failures are 0 or have reached the threshold. */
  predicate NothingToLose(cfg: Config, c: Counters) {
    c.stored != Closed ==> c.failures == 0 || c.failures >= cfg.threshold
  }

  predicate Represents(cfg: Config, c: Counters, m: Machine, now: int) {
    && NothingToLose(cfg, c)
    && match m
       case ClosedWith(n) => n == c.failures < cfg.threshold
       case OpenSince(since) => c.failures >= cfg.threshold && since == c.lastFailure
       case Probing => c.failures >= cfg.threshold && now - c.lastFailure >= cfg.timeout
  }

  lemma CallKeepsInvariant(cfg: Config, c: Counters, call: Call)
    requires cfg.Valid() && NothingToLose(cfg, c)
    ensures NothingToLose(cfg, Called(cfg, c, call).0)
    ensures Verdict(cfg, c, call.start) == Closed ==> Checked(cfg, c, call.start).failures == c.failures
  {
  }

  lemma CallRefines(cfg: Config, c: Counters, m: Machine, since: int, call: Call)
    requires cfg.Valid() && Represents(cfg, c, m, since) && since <= call.start <= call.end
    ensures Called(cfg, c, call).1 == MachineCall(cfg, m, call).1
    ensures Represents(cfg, Called(cfg, c, call).0, MachineCall(cfg, m, call).0, call.end)
  {
  }

  /** Every counter state reached by sequential calls still has nothing to lose. */
  function CountersAfter(cfg: Config, c: Counters, calls: seq<Call>): Counters
    decreases |calls|
  {
    if calls == [] then c else CountersAfter(cfg, Called(cfg, c, calls[0]).0, calls[1..])
  }

  lemma {:induction false} InvariantAlongRuns(cfg: Config, c: Counters, calls: seq<Call>)
    requires cfg.Valid() && NothingToLose(cfg, c)
    ensures NothingToLose(cfg, CountersAfter(cfg, c, calls))
    decreases |calls|
  {
    if calls != [] {
      CallKeepsInvariant(cfg, c, calls[0]);
      InvariantAlongRuns(cfg, Called(cfg, c, calls[0]).0, calls[1..]);
    }
  }

  lemma {:induction false} RunsRefine(cfg: Config, c: Counters, m: Machine, since: int, calls: seq<Call>)
    requires cfg.Valid() && Represents(cfg, c, m, since) && Sequential(calls, since)
    ensures BreakerRun(cfg, c, calls) == MachineRun(cfg, m, calls)
    decreases |calls|
  {
    if calls != [] {
      CallRefines(cfg, c, m, since, calls[0]);
      RunsRefine(cfg, Called(cfg, c, calls[0]).0, MachineCall(cfg, m, calls[0]).0, calls[0].end, calls[1..]);
    }
  }

  /** The counters with their lazily derived verdicts admit and reject exactly as the explicit machine. */
  lemma BreakerRefinesMachine(cfg: Config, calls: seq<Call>, start: int)
    requires cfg.Valid() && Sequential(calls, start)
    ensures BreakerRun(cfg, Initial(), calls) == MachineRun(cfg, ClosedWith(0), calls)
  {
    RunsRefine(cfg, Initial(), ClosedWith(0), start, calls);
  }

  /** No check of a sequential run throws a recorded failure away. */
  lemma SequentialChecksLoseNothing(cfg: Config, calls: seq<Call>, now: int)
    requires cfg.Valid()
    ensures var c := CountersAfter(cfg, Initial(), calls); Checked(cfg, c, now).failures == c.failures
  {
    InvariantAlongRuns(cfg, Initial(), calls);
  }

  // ---------- calls that overlap ----------

  /** A call is checked when it starts and, unless rejected, settled when its future has answered. */
  datatype Event = Start(id: nat, now: int) | Finish(id: nat, outcome: Outcome, now: int)

  /** The counters and the calls under way. */
  datatype Overlapped = Overlapped(counters: Counters, pending: set<nat>)

  predicate Enabled(s: Overlapped, e: Event) {
    match e
    case Start(id, _) => id !in s.pending
    case Finish(id, _, _) => id in s.pending
  }

  function Next(cfg: Config, s: Overlapped, e: Event): Overlapped {
    match e
    case Start(id, now) =>
      Overlapped(Checked(cfg, s.counters, now),
                 if Verdict(cfg, s.counters, now) == Open then s.pending else s.pending + {id})
    case Finish(id, outcome, now) => Overlapped(Settled(s.counters, outcome, now), s.pending - {id})
  }

  /** Every event can happen where it stands, and the clock does not run backwards. */
  predicate Possible(cfg: Config, s: Overlapped, events: seq<Event>, since: int)
    decreases |events|
  {
    events == [] || (
      && since <= events[0].now && Enabled(s, events[0])
      && Possible(cfg, Next(cfg, s, events[0]), events[1..], events[0].now)
    )
  }

  function Exec(cfg: Config, s: Overlapped, events: seq<Event>): Overlapped
    decreases |events|
  {
    if events == [] then s else Exec(cfg, Next(cfg, s, events[0]), events[1..])
  }

  /** What an observer of checks and answers remembers: the last verdict, and what has settled since. */
  datatype Seen = Seen(verdict: State, success: bool, failures: nat)

  /** `failures` counts the failures since the last success, or since the check if there was none. */
  function Observe(cfg: Config, seen: Seen, s: Overlapped, e: Event): Seen {
    match e
    case Start(_, now) => Seen(Verdict(cfg, s.counters, now), false, 0)
    case Finish(_, Success, _) => seen.(success := true, failures := 0)
    case Finish(_, Unavailable, _) => seen.(failures := seen.failures + 1)
    case Finish(_, OtherError, _) => seen
  }

  function Observed(cfg: Config, seen: Seen, s: Overlapped, events: seq<Event>): Seen
    decreases |events|
  {
    if events == [] then seen else
      Observed(cfg, Observe(cfg, seen, s, events[0]), Next(cfg, s, events[0]), events[1..])
  }

  predicate Explains(cfg: Config, seen: Seen, c: Counters) {
    && c.stored == seen.verdict
    && (seen.success ==> c.failures == seen.failures)
    && (!seen.success && seen.verdict != Closed ==> c.failures >= cfg.threshold)
  }

  lemma {:induction false} ObserverExplains(cfg: Config, seen: Seen, s: Overlapped, events: seq<Event>)
    requires cfg.Valid() && Explains(cfg, seen, s.counters)
    ensures Explains(cfg, Observed(cfg, seen, s, events), Exec(cfg, s, events).counters)
    decreases |events|
  {
    if events != [] {
      ObserverExplains(cfg, Observe(cfg, seen, s, events[0]), Next(cfg, s, events[0]), events[1..]);
    }
  }

  const NOTHING_SEEN := Seen(Closed, false, 0)

  function Idle(): Overlapped { Overlapped(Initial(), {}) }

  /** A check after these events would throw recorded failures away. */
  predicate Loses(cfg: Config, events: seq<Event>, now: int) {
    var c := Exec(cfg, Idle(), events).counters;
    Checked(cfg, c, now).failures < c.failures
  }

  /**
   In any interleaving of calls, a check throws recorded failures away exactly if the check before it
   did not find the breaker closed, and since then a success was followed by failures, but by fewer
   than the threshold.
   */
  lemma CheckLosesExactlyAfter(cfg: Config, events: seq<Event>, now: int)
    requires cfg.Valid()
    ensures var seen := Observed(cfg, NOTHING_SEEN, Idle(), events);
            Loses(cfg, events, now) <==> seen.verdict != Closed && seen.success && 1 <= seen.failures < cfg.threshold
  {
    ObserverExplains(cfg, NOTHING_SEEN, Idle(), events);
  }

  /** No call starts while another is under way. */
  predicate OneByOne(cfg: Config, s: Overlapped, events: seq<Event>)
    decreases |events|
  {
    events == [] || ((events[0].Start? ==> s.pending == {}) && OneByOne(cfg, Next(cfg, s, events[0]), events[1..]))
  }

  predicate AloneSeen(seen: Seen, s: Overlapped) {
    && (forall a, b :: a in s.pending && b in s.pending ==> a == b)
    && (s.pending != {} ==> !seen.success && seen.failures == 0)
    && (seen.success ==> seen.failures == 0)
  }

  lemma {:induction false} AloneSeesNoLoss(cfg: Config, seen: Seen, s: Overlapped, events: seq<Event>, since: int)
    requires Possible(cfg, s, events, since) && OneByOne(cfg, s, events) && AloneSeen(seen, s)
    ensures AloneSeen(Observed(cfg, seen, s, events), Exec(cfg, s, events))
    decreases |events|
  {
    if events != [] {
      var e := events[0];
      assert e.Finish? ==> forall a :: a in s.pending ==> a == e.id;
      AloneSeesNoLoss(cfg, Observe(cfg, seen, s, e), Next(cfg, s, e), events[1..], e.now);
    }
  }

  /** Only calls that overlap can lose a failure. */
  lemma LossNeedsOverlap(cfg: Config, events: seq<Event>, since: int, now: int)
    requires cfg.Valid() && Possible(cfg, Idle(), events, since) && Loses(cfg, events, now)
    ensures !OneByOne(cfg, Idle(), events)
  {
    CheckLosesExactlyAfter(cfg, events, now);
    if OneByOne(cfg, Idle(), events) {
      AloneSeesNoLoss(cfg, NOTHING_SEEN, Idle(), events, since);
    }
  }

  /** `k` calls in a row, each failing at once. */
  function Failing(k: nat): seq<Event> {
    if k == 0 then [] else [Start(0, 0), Finish(0, Unavailable, 0)] + Failing(k - 1)
  }

  /** Two probes start; one succeeds, and then the other fails. */
  function TwoProbes(at: int): seq<Event> {
    [Start(0, at)] + ([Start(1, at)] + ([Finish(0, Success, at)] + ([Finish(1, Unavailable, at)] + [])))
  }

  lemma TwoProbesLoseAFailure(cfg: Config)
    requires cfg.Valid() && cfg.threshold > 1
    ensures var s := Overlapped(Counters(cfg.threshold, 0, Closed), {});
            var at: int := cfg.timeout;
            && Possible(cfg, s, TwoProbes(at), 0)
            && Exec(cfg, s, TwoProbes(at)).counters == Counters(1, at, HalfOpen)
  {
    var s := Overlapped(Counters(cfg.threshold, 0, Closed), {});
    var at: int := cfg.timeout;
    var halfOpen := Counters(cfg.threshold, 0, HalfOpen);
    var s1, s2 := Overlapped(halfOpen, {0}), Overlapped(halfOpen, {0, 1});
    var s3, s4 := Overlapped(Counters(0, 0, HalfOpen), {1}), Overlapped(Counters(1, at, HalfOpen), {});
    assert {0, 1} - {0} == {1} && {1} - {1} == {} && {0} + {1} == {0, 1} && {} + {0} == {0};
    assert Next(cfg, s, Start(0, at)) == s1 && Next(cfg, s1, Start(1, at)) == s2;
    assert Next(cfg, s2, Finish(0, Success, at)) == s3 && Next(cfg, s3, Finish(1, Unavailable, at)) == s4;
    hide Next;
    First(cfg, s3, Finish(1, Unavailable, at), [], at);
    First(cfg, s2, Finish(0, Success, at), [Finish(1, Unavailable, at)] + [], at);
    First(cfg, s1, Start(1, at), [Finish(0, Success, at)] + ([Finish(1, Unavailable, at)] + []), at);
    First(cfg, s, Start(0, at), [Start(1, at)] + ([Finish(0, Success, at)] + ([Finish(1, Unavailable, at)] + [])), 0);
  }

  lemma First(cfg: Config, s: Overlapped, e: Event, rest: seq<Event>, since: int)
    requires since <= e.now && Enabled(s, e) && Possible(cfg, Next(cfg, s, e), rest, e.now)
    ensures Possible(cfg, s, [e] + rest, since) && Exec(cfg, s, [e] + rest) == Exec(cfg, Next(cfg, s, e), rest)
  {
    assert ([e] + rest)[1..] == rest;
  }

  lemma {:induction false} FailingThen(cfg: Config, j: nat, k: nat, more: seq<Event>)
    requires cfg.Valid() && j + k == cfg.threshold
    ensures var s, open := Overlapped(Counters(j, 0, Closed), {}), Overlapped(Counters(cfg.threshold, 0, Closed), {});
            && Exec(cfg, s, Failing(k) + more) == Exec(cfg, open, more)
            && (Possible(cfg, open, more, 0) ==> Possible(cfg, s, Failing(k) + more, 0))
    decreases k
  {
    if k == 0 {
      assert Failing(k) + more == more;
    } else {
      FailingThen(cfg, j + 1, k - 1, more);
      var s, events := Overlapped(Counters(j, 0, Closed), {}), Failing(k) + more;
      var started, failed := Overlapped(Counters(j, 0, Closed), {0}), Overlapped(Counters(j + 1, 0, Closed), {});
      assert events == [Start(0, 0)] + ([Finish(0, Unavailable, 0)] + (Failing(k - 1) + more));
      assert Next(cfg, s, Start(0, 0)) == started && Next(cfg, started, Finish(0, Unavailable, 0)) == failed;
      assert events[1..][1..] == Failing(k - 1) + more;
    }
  }

  /** Some interleaving of calls on a fresh breaker, on a clock that does not go back, loses a failure. */
  ghost predicate CanLose(cfg: Config) {
    exists events, now: int :: Possible(cfg, Idle(), events, 0) && Loses(cfg, events, now)
  }

  /** Overlapping calls can lose a failure exactly if it takes more than one failure to open the breaker. */
  lemma CanLoseExactlyAboveOne(cfg: Config)
    requires cfg.Valid()
    ensures CanLose(cfg) <==> cfg.threshold > 1
  {
    if cfg.threshold > 1 {
      var at: int := cfg.timeout;
      var events := Failing(cfg.threshold) + TwoProbes(at);
      TwoProbesLoseAFailure(cfg);
      FailingThen(cfg, 0, cfg.threshold, TwoProbes(at));
      assert Possible(cfg, Idle(), events, 0) && Loses(cfg, events, at);
    } else {
      forall events, now | Possible(cfg, Idle(), events, 0) ensures !Loses(cfg, events, now) {
        CheckLosesExactlyAfter(cfg, events, now);
      }
    }
  }

  // ---------- what an outage costs ----------

  /** How many inner calls start in [lo, hi]. */
  function StartedIn(calls: seq<Call>, results: seq<CallResult>, lo: int, hi: int): nat
    requires |calls| == |results|
    decreases |calls|
  {
    if calls == [] then 0 else
      (if results[0].Ran? && lo <= calls[0].start <= hi then 1 else 0)
      + StartedIn(calls[1..], results[1..], lo, hi)
  }

  predicate OutageDuring(calls: seq<Call>, lo: int, hi: int) {
    forall i :: 0 <= i < |calls| && lo <= calls[i].start <= hi ==> calls[i].outcome == Unavailable
  }

  /** The probes that fit between `from` and `hi`, one timeout apart. */
  function ProbesUntil(cfg: Config, from: int, hi: int): nat
    requires cfg.Valid()
  {
    if from > hi then 0 else 1 + (hi - from) / cfg.timeout
  }

  /** How many inner calls an outage lasting until `hi` can still see, from a moment `now` on. */
  function OutageBudget(cfg: Config, c: Counters, now: int, hi: int): int
    requires cfg.Valid()
  {
    if now > hi then 0
    else if c.failures >= cfg.threshold then ProbesUntil(cfg, Max(now, c.lastFailure + cfg.timeout), hi)
    else (if c.stored == Closed then cfg.threshold - c.failures else cfg.threshold) + (hi - now) / cfg.timeout
  }

  lemma ProbesMono(cfg: Config, early: int, late: int, hi: int)
    requires cfg.Valid() && early <= late
    ensures ProbesUntil(cfg, late, hi) <= ProbesUntil(cfg, early, hi)
    ensures early <= hi ==> ProbesUntil(cfg, early + cfg.timeout, hi) + 1 <= ProbesUntil(cfg, early, hi)
  {
    if late <= hi { QuotientMono(hi - late, hi - early, cfg.timeout); }
    if early <= hi {
      QuotientMono(0, hi - early, cfg.timeout);
      QuotientShift(hi - early, cfg.timeout);
    }
  }

  /** A call during the outage is paid from the budget; letting time pass never adds to it. */
  lemma CallSpendsBudget(cfg: Config, c: Counters, since: int, call: Call, hi: int)
    requires cfg.Valid() && since <= call.start <= call.end && call.start <= hi && call.outcome == Unavailable
    ensures var (next, result) := Called(cfg, c, call);
            OutageBudget(cfg, next, call.end, hi) + (if result.Ran? then 1 else 0) <= OutageBudget(cfg, c, since, hi)
  {
    var (next, result) := Called(cfg, c, call);
    QuotientMono(0, hi - since, cfg.timeout);
    if call.end <= hi {
      QuotientMono(hi - call.end, hi - since, cfg.timeout);
      QuotientMono(0, hi - call.end, cfg.timeout);
    }
    if c.failures >= cfg.threshold {
      var from := Max(since, c.lastFailure + cfg.timeout);
      if result.Ran? {
        ProbesMono(cfg, from, call.start, hi);
        ProbesMono(cfg, call.start, call.start, hi);
        ProbesMono(cfg, call.start + cfg.timeout, call.end + cfg.timeout, hi);
      } else {
        ProbesMono(cfg, from, Max(call.end, c.lastFailure + cfg.timeout), hi);
      }
    } else if next.failures >= cfg.threshold && call.end + cfg.timeout <= hi {
      QuotientShift(hi - call.end, cfg.timeout);
    }
  }

  lemma {:induction false} NoneStartedAfter(calls: seq<Call>, results: seq<CallResult>, since: int, lo: int, hi: int)
    requires |calls| == |results| && Sequential(calls, since) && since > hi
    ensures StartedIn(calls, results, lo, hi) == 0
    decreases |calls|
  {
    if calls != [] { NoneStartedAfter(calls[1..], results[1..], calls[0].end, lo, hi); }
  }

  lemma {:induction false} BudgetCoversOutage(cfg: Config, c: Counters, since: int, calls: seq<Call>, lo: int, hi: int)
    requires cfg.Valid() && Sequential(calls, since) && lo <= since && OutageDuring(calls, lo, hi)
    ensures StartedIn(calls, BreakerRun(cfg, c, calls), lo, hi) <= OutageBudget(cfg, c, since, hi)
    decreases |calls|
  {
    if since <= hi {
      QuotientMono(0, hi - since, cfg.timeout);
      ProbesMono(cfg, since, since, hi);
    }
    if calls == [] { return; }
    var call := calls[0];
    if call.start > hi {
      NoneStartedAfter(calls, BreakerRun(cfg, c, calls), call.start, lo, hi);
    } else {
      assert call.outcome == Unavailable;
      var next := Called(cfg, c, call).0;
      CallSpendsBudget(cfg, c, since, call, hi);
      assert BreakerRun(cfg, c, calls)[1..] == BreakerRun(cfg, next, calls[1..]);
      forall i | 0 <= i < |calls[1..]| && lo <= calls[1..][i].start <= hi ensures calls[1..][i].outcome == Unavailable {
        assert calls[1..][i] == calls[i + 1];
      }
      BudgetCoversOutage(cfg, next, call.end, calls[1..], lo, hi);
    }
  }

  /**
   In any sequential run, an interval during which the dependency always answers "unavailable"
   starts at most `threshold + length / timeout` inner calls, whatever happened before it.
   */
  lemma {:induction false} OutageBound(cfg: Config, c: Counters, since: int, calls: seq<Call>, lo: int, hi: int)
    requires cfg.Valid() && Sequential(calls, since) && lo <= hi && OutageDuring(calls, lo, hi)
    ensures StartedIn(calls, BreakerRun(cfg, c, calls), lo, hi) <= cfg.threshold + (hi - lo) / cfg.timeout
    decreases |calls|
  {
    QuotientMono(0, hi - lo, cfg.timeout);
    if calls == [] { return; }
    var call := calls[0];
    var next := Called(cfg, c, call).0;
    if call.start < lo {
      assert BreakerRun(cfg, c, calls)[1..] == BreakerRun(cfg, next, calls[1..]);
      forall i | 0 <= i < |calls[1..]| && lo <= calls[1..][i].start <= hi ensures calls[1..][i].outcome == Unavailable {
        assert calls[1..][i] == calls[i + 1];
      }
      OutageBound(cfg, next, call.end, calls[1..], lo, hi);
    } else {
      BudgetCoversOutage(cfg, c, call.start, calls, lo, hi);
      if call.start <= hi {
        QuotientMono(hi - call.start, hi - lo, cfg.timeout);
        ProbesMono(cfg, call.start, Max(call.start, c.lastFailure + cfg.timeout), hi);
      }
    }
  }
}
