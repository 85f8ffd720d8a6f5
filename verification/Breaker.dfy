// storage/circuit_breaker.go: the three-phase circuit breaker that guards primary storage.

/** The breaker as a class, proved against a step function on its fields.  Execute holds the
    mutex across the guarded function, so a run of the breaker is a sequence of whole calls. */
module Breaker {
  import opened Basics

  datatype Phase = Closed | Open | HalfOpen

  // What the guarded function does if this call invokes it.
  datatype Outcome = Succeeds | Fails(error: string)

  // One Execute call: the clock read on entry, the clock read after the guarded function
  // returned, and what that function does if it is invoked.
  datatype Call = Call(entry: int, exit: int, outcome: Outcome)

  // Rejected is ErrCircuitBreakerOpen; the guarded function was not invoked.
  datatype Reply = Rejected | Passed | Failed(error: string)

  datatype Config = Config(failureThreshold: int, resetTimeout: int, halfOpenSuccessThreshold: int)

  datatype State = State(
    phase: Phase, failures: int, halfOpenSuccesses: int, lastStateChange: int, lastError: string)

  const NEW := State(Closed, 0, 0, 0, "")

  // The code after the switch, which the Closed phase and an expired Open phase share.
  function AfterSwitch(cfg: Config, s: State, c: Call): (State, Reply) {
    match c.outcome
    case Succeeds => (s.(failures := 0), Passed)
    case Fails(e) =>
      if s.failures + 1 >= cfg.failureThreshold then
        (s.(failures := s.failures + 1, phase := Open, lastStateChange := c.exit, lastError := e), Failed(e))
      else
        (s.(failures := s.failures + 1), Failed(e))
  }

  function Step(cfg: Config, s: State, c: Call): (State, Reply) {
    match s.phase
    case Closed => AfterSwitch(cfg, s, c)
    case Open =>
      if c.entry - s.lastStateChange > cfg.resetTimeout
      then AfterSwitch(cfg, s.(phase := HalfOpen, halfOpenSuccesses := 0), c)
      else (s, Rejected)
    case HalfOpen =>
      match c.outcome
      case Fails(e) => (s.(phase := Open, lastStateChange := c.exit, lastError := e), Failed(e))
      case Succeeds =>
        var n := s.halfOpenSuccesses + 1;
        (if n >= cfg.halfOpenSuccessThreshold
         then s.(halfOpenSuccesses := n, phase := Closed, failures := 0)
         else s.(halfOpenSuccesses := n),
         Passed)
  }

  class CircuitBreaker {
    var phase: Phase
    var failures: int
    var halfOpenSuccesses: int
    var lastStateChange: int
    var lastError: string
    const cfg: Config

    function Snapshot(): State
      reads this
    {
      State(phase, failures, halfOpenSuccesses, lastStateChange, lastError)
    }

    constructor (cfg: Config)
      ensures this.cfg == cfg && Snapshot() == NEW
    {
      this.cfg := cfg;
      phase, failures, halfOpenSuccesses, lastStateChange, lastError := Closed, 0, 0, 0, "";
    }

    method Execute(c: Call) returns (reply: Reply)
      modifies this
      ensures (Snapshot(), reply) == Step(cfg, old(Snapshot()), c)
    {
      match phase {
        case Open =>
          if c.entry - lastStateChange > cfg.resetTimeout {
            phase := HalfOpen;
            halfOpenSuccesses := 0;
          } else {
            return Rejected;
          }
        case HalfOpen =>
          if c.outcome.Fails? {
            phase := Open;
            lastStateChange := c.exit;
            lastError := c.outcome.error;
            return Failed(c.outcome.error);
          }
          halfOpenSuccesses := halfOpenSuccesses + 1;
          if halfOpenSuccesses >= cfg.halfOpenSuccessThreshold {
            phase := Closed;
            failures := 0;
          }
          return Passed;
        case Closed =>
      }
      if c.outcome.Fails? {
        failures := failures + 1;
        if failures >= cfg.failureThreshold {
          phase := Open;
          lastStateChange := c.exit;
          lastError := c.outcome.error;
        }
        return Failed(c.outcome.error);
      }
      failures := 0;
      return Passed;
    }
  }

  // ---------- Runs ----------

  // What an observer sees of one call: the phase it met, its reply, the phase it left.
  datatype Event = Event(before: Phase, reply: Reply, after: Phase, exit: int)

  function After(cfg: Config, s: State, calls: seq<Call>): State {
    if calls == [] then s
    else Step(cfg, After(cfg, s, calls[..|calls| - 1]), calls[|calls| - 1]).0
  }

  function Observe(cfg: Config, s: State, c: Call): Event {
    var (s', reply) := Step(cfg, s, c);
    Event(s.phase, reply, s'.phase, c.exit)
  }

  function Trace(cfg: Config, s: State, calls: seq<Call>): (t: seq<Event>)
    ensures |t| == |calls|
  {
    if calls == [] then []
    else
      var front := calls[..|calls| - 1];
      Trace(cfg, s, front) + [Observe(cfg, After(cfg, s, front), calls[|calls| - 1])]
  }

  // ---------- The breaker explained by its history alone ----------

  predicate ClosedFailure(e: Event) { e.before == Closed && e.reply.Failed? }

  predicate HalfOpenSuccess(e: Event) { e.before == HalfOpen && e.reply == Passed }

  // How many of the latest events are failures met in phase Closed.
  function ClosedFailureRun(t: seq<Event>): nat {
    if t != [] && ClosedFailure(t[|t| - 1]) then ClosedFailureRun(t[..|t| - 1]) + 1 else 0
  }

  // How many of the latest events are successes met in phase HalfOpen.
  function HalfOpenSuccessRun(t: seq<Event>): nat {
    if t != [] && HalfOpenSuccess(t[|t| - 1]) then HalfOpenSuccessRun(t[..|t| - 1]) + 1 else 0
  }

  // Failures met in phase Closed or as a probe from Open, since the last success of those
  // two kinds or the last return to Closed.  Half-open calls and rejections do not count.
  function FailureRun(t: seq<Event>): nat {
    if t == [] then 0
    else
      var e, rest := t[|t| - 1], t[..|t| - 1];
      if e.before == HalfOpen then (if e.after == Closed then 0 else FailureRun(rest))
      else match e.reply
           case Rejected => FailureRun(rest)
           case Passed => 0
           case Failed(_) => FailureRun(rest) + 1
  }

  // The exit time of the latest failed call that left the breaker Open.
  function LastTrip(t: seq<Event>): int {
    if t == [] then 0
    else if t[|t| - 1].after == Open && t[|t| - 1].reply.Failed? then t[|t| - 1].exit
    else LastTrip(t[..|t| - 1])
  }

  // What that call failed with.
  function LastTripError(t: seq<Event>): string {
    if t == [] then ""
    else if t[|t| - 1].after == Open && t[|t| - 1].reply.Failed? then t[|t| - 1].reply.error
    else LastTripError(t[..|t| - 1])
  }

  function PhaseAfter(t: seq<Event>): Phase {
    if t == [] then Closed else t[|t| - 1].after
  }

  // The event that call c must produce after the history t, with no counter in sight.
  function Explained(cfg: Config, t: seq<Event>, c: Call): Event {
    var said := if c.outcome.Fails? then Failed(c.outcome.error) else Passed;
    match PhaseAfter(t)
    case Closed =>
      Event(Closed, said,
            if said.Failed? && ClosedFailureRun(t) + 1 == cfg.failureThreshold then Open else Closed, c.exit)
    case HalfOpen =>
      Event(HalfOpen, said,
            if said.Failed? then Open
            else if HalfOpenSuccessRun(t) + 1 == cfg.halfOpenSuccessThreshold then Closed
            else HalfOpen, c.exit)
    case Open =>
      if c.entry - LastTrip(t) <= cfg.resetTimeout then Event(Open, Rejected, Open, c.exit)
      else Event(Open, said,
                 if said.Failed? && FailureRun(t) + 1 >= cfg.failureThreshold then Open else HalfOpen, c.exit)
  }

  predicate Counted(cfg: Config, s: State, t: seq<Event>) {
    && s.phase == PhaseAfter(t)
    && s.failures == FailureRun(t)
    && (s.phase == Closed ==> s.failures == ClosedFailureRun(t))
    && (s.phase != Open ==> s.failures < cfg.failureThreshold)
    && (s.phase == HalfOpen ==> s.halfOpenSuccesses == HalfOpenSuccessRun(t) < cfg.halfOpenSuccessThreshold)
    && s.lastStateChange == LastTrip(t) && s.lastError == LastTripError(t)
  }

  predicate Sensible(cfg: Config) {
    cfg.failureThreshold >= 1 && cfg.halfOpenSuccessThreshold >= 1
  }

  // Every counter of every reachable state is a run length of the history.
  lemma {:induction false} CountersAreHistory(cfg: Config, calls: seq<Call>)
    requires Sensible(cfg)
    ensures Counted(cfg, After(cfg, NEW, calls), Trace(cfg, NEW, calls))
  {
    if calls != [] {
      var front, c := calls[..|calls| - 1], calls[|calls| - 1];
      CountersAreHistory(cfg, front);
      var t, t' := Trace(cfg, NEW, front), Trace(cfg, NEW, calls);
      assert t'[..|t'| - 1] == t;
    }
  }

  lemma {:induction false} TracePrefix(cfg: Config, s: State, calls: seq<Call>, i: nat)
    requires i < |calls|
    ensures Trace(cfg, s, calls)[..i] == Trace(cfg, s, calls[..i])
    ensures Trace(cfg, s, calls)[i] == Observe(cfg, After(cfg, s, calls[..i]), calls[i])
  {
    var front := calls[..|calls| - 1];
    if i < |calls| - 1 {
      TracePrefix(cfg, s, front, i);
      assert front[..i] == calls[..i];
    }
  }

  // Execute refines the history-based specification, on every run.
  lemma {:induction false} ExecuteRefinesHistory(cfg: Config, calls: seq<Call>, i: nat)
    requires Sensible(cfg) && i < |calls|
    ensures Trace(cfg, NEW, calls)[i] == Explained(cfg, Trace(cfg, NEW, calls)[..i], calls[i])
  {
    TracePrefix(cfg, NEW, calls, i);
    CountersAreHistory(cfg, calls[..i]);
  }

  // A failed probe leaves the breaker half open exactly if the failure counter, which a successful
  // probe has reset meanwhile, is too low to trip it again.
  lemma {:induction false} FailedProbeStaysHalfOpenIff(cfg: Config, calls: seq<Call>, i: nat)
    requires Sensible(cfg) && i < |calls|
    requires var e := Trace(cfg, NEW, calls)[i]; e.before == Open && e.reply.Failed?
    ensures var t := Trace(cfg, NEW, calls);
            t[i].after == HalfOpen <==> FailureRun(t[..i]) + 1 < cfg.failureThreshold
  {
    ExecuteRefinesHistory(cfg, calls, i);
  }

  // It happens: two failures trip, a probe succeeds, the half-open call fails, the next probe fails.
  const PROBES: seq<Call> := [
    Call(0, 1, Fails("")), Call(2, 3, Fails("")), Call(20, 21, Succeeds),
    Call(22, 23, Fails("")), Call(40, 41, Fails(""))]

  lemma {:induction false} FailedProbeWitness()
    ensures Trace(Config(2, 10, 2), NEW, PROBES)[4] == Event(Open, Failed(""), HalfOpen, 41)
  {
    var cfg := Config(2, 10, 2);
    TracePrefix(cfg, NEW, PROBES, 4);
    AfterNext(cfg, PROBES, 0);
    AfterNext(cfg, PROBES, 1);
    AfterNext(cfg, PROBES, 2);
    AfterNext(cfg, PROBES, 3);
    assert PROBES[..0] == [];
  }

  lemma {:induction false} AfterNext(cfg: Config, calls: seq<Call>, i: nat)
    requires i < |calls|
    ensures After(cfg, NEW, calls[..i + 1]) == Step(cfg, After(cfg, NEW, calls[..i]), calls[i]).0
  {
    assert calls[..i + 1][..i] == calls[..i];
  }

  lemma {:induction false} ClosedRunIsWindow(t: seq<Event>, k: nat)
    ensures k <= ClosedFailureRun(t) <==> k <= |t| && forall j :: |t| - k <= j < |t| ==> ClosedFailure(t[j])
  {
    if t != [] && k > 0 {
      var rest := t[..|t| - 1];
      ClosedRunIsWindow(rest, k - 1);
      if k <= |t| && ClosedFailure(t[|t| - 1]) {
        assert forall j :: |rest| - (k - 1) <= j < |rest| ==> rest[j] == t[j];
      }
    }
  }

  lemma {:induction false} SuccessRunIsWindow(t: seq<Event>, k: nat)
    ensures k <= HalfOpenSuccessRun(t) <==> k <= |t| && forall j :: |t| - k <= j < |t| ==> HalfOpenSuccess(t[j])
  {
    if t != [] && k > 0 {
      var rest := t[..|t| - 1];
      SuccessRunIsWindow(rest, k - 1);
      if k <= |t| && HalfOpenSuccess(t[|t| - 1]) {
        assert forall j :: |rest| - (k - 1) <= j < |rest| ==> rest[j] == t[j];
      }
    }
  }

  lemma {:induction false} RunsThrough(t: seq<Event>, i: nat)
    requires i < |t|
    ensures ClosedFailureRun(t[..i + 1]) == if ClosedFailure(t[i]) then ClosedFailureRun(t[..i]) + 1 else 0
    ensures HalfOpenSuccessRun(t[..i + 1]) == if HalfOpenSuccess(t[i]) then HalfOpenSuccessRun(t[..i]) + 1 else 0
  {
    assert t[..i + 1][..i] == t[..i];
  }

  // The phase changes of one call in terms of the runs that end with it.
  lemma {:induction false} ChangesByRuns(cfg: Config, calls: seq<Call>, i: nat)
    requires Sensible(cfg) && i < |calls|
    ensures var t := Trace(cfg, NEW, calls);
            && (t[i].before == Closed && t[i].after == Open <==> ClosedFailureRun(t[..i + 1]) >= cfg.failureThreshold)
            && (t[i].before != Closed && t[i].after == Closed
                <==> HalfOpenSuccessRun(t[..i + 1]) >= cfg.halfOpenSuccessThreshold)
            && HalfOpenSuccessRun(t[..i + 1]) <= cfg.halfOpenSuccessThreshold
  {
    RunsThrough(Trace(cfg, NEW, calls), i);
    ExecuteRefinesHistory(cfg, calls, i);
    TracePrefix(cfg, NEW, calls, i);
    CountersAreHistory(cfg, calls[..i]);
  }

  // A closed breaker trips on a call exactly when that call completes failureThreshold
  // consecutive failures, all met while Closed.
  lemma {:induction false} TripsOnExactRun(cfg: Config, calls: seq<Call>, i: nat)
    requires Sensible(cfg) && i < |calls|
    ensures var t, n := Trace(cfg, NEW, calls), cfg.failureThreshold;
            (t[i].before == Closed && t[i].after == Open)
            <==> (i + 1 >= n && forall j :: i - n < j <= i ==> ClosedFailure(t[j]))
  {
    var t, n := Trace(cfg, NEW, calls), cfg.failureThreshold;
    ChangesByRuns(cfg, calls, i);
    ClosedRunIsWindow(t[..i + 1], n);
    hide ClosedFailureRun, Trace, ClosedFailure;
    assert forall j :: 0 <= j <= i ==> t[..i + 1][j] == t[j];
  }

  // The breaker re-enters Closed exactly on the last of halfOpenSuccessThreshold consecutive
  // successes met while HalfOpen.
  lemma {:induction false} ClosesOnExactRun(cfg: Config, calls: seq<Call>, i: nat)
    requires Sensible(cfg) && i < |calls|
    ensures var t, n := Trace(cfg, NEW, calls), cfg.halfOpenSuccessThreshold;
            (t[i].before != Closed && t[i].after == Closed)
            <==> (i + 1 >= n && forall j :: i - n < j <= i ==> HalfOpenSuccess(t[j]))
  {
    var t, n := Trace(cfg, NEW, calls), cfg.halfOpenSuccessThreshold;
    ChangesByRuns(cfg, calls, i);
    SuccessRunIsWindow(t[..i + 1], n);
    hide HalfOpenSuccessRun, Trace, HalfOpenSuccess;
    assert forall j :: 0 <= j <= i ==> t[..i + 1][j] == t[j];
  }

  // A half-open success is preceded either by another one or by a probe that left Open; the
  // probe itself is never a half-open success.
  lemma {:induction false} BeforeHalfOpenSuccess(cfg: Config, calls: seq<Call>, i: nat)
    requires Sensible(cfg) && i < |calls| && HalfOpenSuccess(Trace(cfg, NEW, calls)[i])
    ensures i > 0
    ensures var e := Trace(cfg, NEW, calls)[i - 1];
            HalfOpenSuccess(e) || (e.before == Open && e.reply != Rejected && e.after == HalfOpen)
  {
    var t := Trace(cfg, NEW, calls);
    ExecuteRefinesHistory(cfg, calls, i);
    assert PhaseAfter(t[..i]) == HalfOpen;
    assert t[..i][i - 1] == t[i - 1];
    ExecuteRefinesHistory(cfg, calls, i - 1);
  }

  // The run of successes that closes the breaker is preceded by the probe that left Open, which
  // is not among them: recovery takes one more call than halfOpenSuccessThreshold, however the
  // probe itself went.
  lemma {:induction false} ClosingRunFollowsProbe(cfg: Config, calls: seq<Call>, i: nat)
    requires Sensible(cfg) && i < |calls|
    requires Trace(cfg, NEW, calls)[i].before != Closed && Trace(cfg, NEW, calls)[i].after == Closed
    ensures var t, n := Trace(cfg, NEW, calls), cfg.halfOpenSuccessThreshold;
            i >= n && t[i - n].before == Open && t[i - n].reply != Rejected && t[i - n].after == HalfOpen
  {
    var t, n := Trace(cfg, NEW, calls), cfg.halfOpenSuccessThreshold;
    ClosesOnExactRun(cfg, calls, i);
    assert HalfOpenSuccess(t[i + 1 - n]);
    BeforeHalfOpenSuccess(cfg, calls, i + 1 - n);
    // The run is no longer than n: one success more and the breaker would have closed before.
    ChangesByRuns(cfg, calls, i);
    SuccessRunIsWindow(t[..i + 1], n + 1);
    hide HalfOpenSuccessRun, Trace;
    var j :| i - n <= j <= i && !HalfOpenSuccess(t[..i + 1][j]);
    assert t[..i + 1][j] == t[j] && j == i - n;
  }

  // ---------- How often a dead backend is called ----------

  function Invocations(t: seq<Event>): nat {
    if t == [] then 0
    else Invocations(t[..|t| - 1]) + (if t[|t| - 1].reply == Rejected then 0 else 1)
  }

  // The clock never runs backwards, from t0 to t1, through whole calls that do not overlap.
  predicate Timed(calls: seq<Call>, t0: int, t1: int) {
    && t0 <= t1
    && (forall i :: 0 <= i < |calls| ==> t0 <= calls[i].entry <= calls[i].exit <= t1)
    && (forall i, j :: 0 <= i < j < |calls| ==> calls[i].exit <= calls[j].entry)
  }

  // Invocations that may still happen without waiting for the reset timeout.
  function Allowance(cfg: Config, s: State): int {
    if s.phase == Open then Max(0, cfg.failureThreshold - 1 - s.failures)
    else cfg.failureThreshold - s.failures
  }

  predicate Steady(cfg: Config, s: State, now: int) {
    && s.failures >= 0
    && (s.phase != Open ==> s.failures < cfg.failureThreshold)
    && (s.phase == Open ==> s.lastStateChange <= now)
  }

  lemma {:induction false} ReachableIsSteady(cfg: Config, calls: seq<Call>, t0: int, t1: int)
    requires Sensible(cfg) && Timed(calls, t0, t1)
    ensures Steady(cfg, After(cfg, NEW, calls), t1)
  {
    if calls != [] {
      var front := calls[..|calls| - 1];
      assert Timed(front, t0, calls[|calls| - 1].entry);
      ReachableIsSteady(cfg, front, t0, calls[|calls| - 1].entry);
    }
  }

  // The instant from which the elapsed time of the stretch has not yet paid for anything.
  function Paid(cfg: Config, s: State, t0: int, t1: int): int {
    if s.phase == Open then Max(s.lastStateChange, t0 - cfg.resetTimeout) else t1
  }

  // One failing call is either covered by the allowance or paid for by a full reset timeout.
  lemma {:induction false} CallIsCovered(cfg: Config, s: State, c: Call, t0: int, t1: int)
    requires cfg.failureThreshold >= 1 && cfg.resetTimeout > 0 && c.outcome.Fails?
    requires t0 <= c.entry <= c.exit <= t1 && Steady(cfg, s, c.entry)
    ensures var (s', reply) := Step(cfg, s, c);
            var spent := Allowance(cfg, s') - Allowance(cfg, s) + (if reply == Rejected then 0 else 1);
            var gained := Paid(cfg, s', t0, t1) - Paid(cfg, s, t0, c.entry);
            && Steady(cfg, s', t1)
            && (spent <= 0 <= gained || (spent == 1 && cfg.resetTimeout <= gained))
  {
  }

  // Calls made, less those the allowance covers, times the timeout, fit in the elapsed time.
  predicate Covered(cfg: Config, made: int, s: State, t0: int, t1: int) {
    Within(made + Allowance(cfg, s) - cfg.failureThreshold, cfg.resetTimeout, Paid(cfg, s, t0, t1) - t0)
  }

  predicate Within(x: int, r: int, p: int) { x * r <= p }

  lemma {:induction false} Amortised(cfg: Config, s: State, calls: seq<Call>, t0: int, t1: int)
    requires cfg.failureThreshold >= 1 && cfg.resetTimeout > 0
    requires Steady(cfg, s, t0) && Timed(calls, t0, t1)
    requires forall i :: 0 <= i < |calls| ==> calls[i].outcome.Fails?
    ensures Steady(cfg, After(cfg, s, calls), t1)
    ensures Covered(cfg, Invocations(Trace(cfg, s, calls)), After(cfg, s, calls), t0, t1)
  {
    if calls == [] {
      StartsCovered(Allowance(cfg, s) - cfg.failureThreshold, Paid(cfg, s, t0, t1) - t0, cfg.resetTimeout);
    } else {
      var front, c := calls[..|calls| - 1], calls[|calls| - 1];
      assert Timed(front, t0, c.entry);
      Amortised(cfg, s, front, t0, c.entry);
      var t, t' := Trace(cfg, s, front), Trace(cfg, s, calls);
      assert t'[..|t'| - 1] == t;
      CallStaysCovered(cfg, After(cfg, s, front), c, Invocations(t), t0, t1);
    }
  }

  lemma {:induction false} CallStaysCovered(cfg: Config, s: State, c: Call, made: int, t0: int, t1: int)
    requires cfg.failureThreshold >= 1 && cfg.resetTimeout > 0 && c.outcome.Fails?
    requires t0 <= c.entry <= c.exit <= t1 && Steady(cfg, s, c.entry)
    requires Covered(cfg, made, s, t0, c.entry)
    ensures var (s', reply) := Step(cfg, s, c);
            Steady(cfg, s', t1) && Covered(cfg, made + (if reply == Rejected then 0 else 1), s', t0, t1)
  {
    CallIsCovered(cfg, s, c, t0, t1);
    var (s', reply) := Step(cfg, s, c);
    Settle(made + Allowance(cfg, s) - cfg.failureThreshold, Paid(cfg, s, t0, c.entry) - t0,
           made + (if reply == Rejected then 0 else 1) + Allowance(cfg, s') - cfg.failureThreshold,
           Paid(cfg, s', t0, t1) - t0, cfg.resetTimeout);
  }

  lemma {:induction false} StartsCovered(x: int, p: int, r: int)
    requires 0 < r && ((x <= 0 <= p) || (x <= -1 && -r <= p))
    ensures x * r <= p
  {
    Scale(x, if p < 0 then -1 else 0, r);
  }

  lemma {:induction false} Settle(x: int, p: int, x': int, p': int, r: int)
    requires x * r <= p && 0 < r && ((x' <= x && p <= p') || (x' == x + 1 && p + r <= p'))
    ensures x' * r <= p'
  {
    if x' <= x { Scale(x', x, r); } else { assert x' * r == x * r + r; }
  }

  lemma {:induction false} Scale(a: int, b: int, r: int)
    requires a <= b && 0 < r
    ensures a * r <= b * r
  {
  }

  // From any reachable state, a stretch of calls in which every invocation fails reaches the
  // backend at most failureThreshold + floor(D / resetTimeout) times, D being its duration.
  lemma {:induction false} OutageCallBound(cfg: Config, earlier: seq<Call>, stretch: seq<Call>,
                                           start: int, t0: int, t1: int)
    requires Sensible(cfg) && cfg.resetTimeout > 0
    requires Timed(earlier, start, t0) && Timed(stretch, t0, t1)
    requires forall i :: 0 <= i < |stretch| ==> stretch[i].outcome.Fails?
    ensures Invocations(Trace(cfg, After(cfg, NEW, earlier), stretch))
            <= cfg.failureThreshold + (t1 - t0) / cfg.resetTimeout
  {
    var s := After(cfg, NEW, earlier);
    ReachableIsSteady(cfg, earlier, start, t0);
    Amortised(cfg, s, stretch, t0, t1);
    CoverGivesBound(cfg, Invocations(Trace(cfg, s, stretch)), After(cfg, s, stretch), t0, t1);
  }

  lemma {:induction false} CoverGivesBound(cfg: Config, made: int, s: State, t0: int, t1: int)
    requires cfg.resetTimeout > 0 && t0 <= t1 && Steady(cfg, s, t1) && Covered(cfg, made, s, t0, t1)
    ensures made <= cfg.failureThreshold + (t1 - t0) / cfg.resetTimeout
  {
    var extra := made - cfg.failureThreshold;
    Scale(extra, extra + Allowance(cfg, s), cfg.resetTimeout);
    AtMostQuotient(extra, t1 - t0, cfg.resetTimeout);
  }

  lemma {:induction false} AtMostQuotient(x: int, d: int, r: int)
    requires x * r <= d && 0 < r
    ensures x <= d / r
  {
    var q := d / r;
    assert (q + 1) * r == q * r + r > d;
    if x > q { Scale(q + 1, x, r); }
  }
}
