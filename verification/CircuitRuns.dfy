/**
 What the circuit breaker guarantees over whole runs: when it is open, how far apart calls that reach the
 network are, and how many requests any time window can hold.
 */
module CircuitRuns {
  import opened Common
  import opened Arith
  import opened Circuit

  /** The circuit opens at the threshold, but never before the first failure. */
  function OpenLimit(cfg: Config): int { MaxInt(1, cfg.threshold) }

  /** What holds between calls. */
  ghost predicate Coherent(cfg: Config, s: State) {
    && (s.openedAt.Some? <==> s.failures >= OpenLimit(cfg))
    && (s.openedAt.Some? ==> s.openedAt.value <= s.clock)
    && (s.reason.Some? <==> s.failures > 0)
  }

  /** The number of failed attempts since the last successful one. */
  ghost function TrailingFailures(sends: seq<Send>): nat {
    if sends == [] || sends[|sends| - 1].ok then 0 else 1 + TrailingFailures(sends[..|sends| - 1])
  }

  ghost predicate NoneOk(sends: seq<Send>) {
    forall i :: 0 <= i < |sends| ==> !sends[i].ok
  }

  ghost predicate SentWithin(sends: seq<Send>, from: real, to: real) {
    forall i :: 0 <= i < |sends| ==> from <= sends[i].at <= to
  }

  // ----- one call

  /** What the retry loop does to the breaker, told without its recursion. */
  ghost predicate LoopOutcome(cfg: Config, s: State, a: Attempts) {
    && a.sends != []
    && s.clock <= a.state.clock
    && SentWithin(a.sends, s.clock, a.state.clock)
    && (a.result.Returned? ==>
          && a.sends[|a.sends| - 1].ok && NoneOk(a.sends[..|a.sends| - 1])
          && a.state.failures == 0 && a.state.openedAt.None? && a.state.reason.None?)
    && (a.result.Failed? ==>
          && NoneOk(a.sends)
          && a.state.failures == s.failures + |a.sends|
          && a.state.reason == Some(a.result.reply)
          && (a.state.openedAt.Some? <==> a.state.failures >= OpenLimit(cfg))
          && (a.state.openedAt.Some? ==>
                && a.state.openedAt.value <= a.state.clock
                && SentWithin(a.sends, s.clock, a.state.openedAt.value)))
    && !a.result.Refused?
  }

  lemma DelayPositive(x: Step, attempt: nat)
    requires ValidStep(x)
    ensures Delay(x, attempt) >= 0.0
  {}

  lemma {:induction false} LoopFacts(cfg: Config, s: State, steps: seq<Step>, attempt: nat)
    requires ValidSteps(cfg, steps) && attempt <= cfg.retries
    requires s.openedAt.Some? ==> s.failures >= OpenLimit(cfg)
    ensures LoopOutcome(cfg, s, RunAttempts(cfg, s, steps, attempt))
    ensures |RunAttempts(cfg, s, steps, attempt).sends| <= cfg.retries + 1 - attempt
    ensures RunAttempts(cfg, s, steps, attempt).sends[0].at == s.clock
    decreases cfg.retries - attempt
  {
    var x := steps[attempt];
    assert ValidStep(x);
    hide RunAttempts; hide Permanent; hide Delay;
    RunAttemptsStep(cfg, s, steps, attempt);
    if !x.reply.Accepted? && !Permanent(x.reply) && attempt < cfg.retries {
      var failed := FailedAttempt(cfg, s, x);
      DelayPositive(x, attempt);
      var paused := Paused(failed, x, attempt);
      LoopFacts(cfg, paused, steps, attempt + 1);
      OneMoreAttempt(cfg, s, paused, Send(s.clock, false), RunAttempts(cfg, paused, steps, attempt + 1));
    }
  }

  lemma OneMoreAttempt(cfg: Config, s: State, paused: State, x: Send, a: Attempts)
    requires paused.failures == s.failures + 1 && paused.clock >= s.clock && x == Send(s.clock, false)
    requires LoopOutcome(cfg, paused, a)
    ensures LoopOutcome(cfg, s, a.(sends := [x] + a.sends))
  {
    var sends := [x] + a.sends;
    assert sends[|sends| - 1] == a.sends[|a.sends| - 1];
    assert sends[..|sends| - 1] == [x] + a.sends[..|a.sends| - 1];
  }

  /** The contract of one call, between two moments at which no call is running. */
  ghost predicate CallContract(cfg: Config, s: State, s': State, log: CallLog) {
    && Coherent(cfg, s')
    && s.clock <= log.checkedAt <= s'.clock
    && |log.sends| <= cfg.retries + 1
    && (log.result.Refused? <==> log.sends == [])
    && SentWithin(log.sends, log.checkedAt, s'.clock)
    // nothing is sent before the cooldown is over
    && (log.sends != [] && s.openedAt.Some? ==> log.checkedAt >= s.openedAt.value + cfg.cooldown)
    && (log.result.Refused? ==>
          s.openedAt.Some? && s'.openedAt == s.openedAt && s'.failures == s.failures)
    && (log.result.Returned? ==>
          && s'.failures == 0
          && log.sends[|log.sends| - 1].ok && NoneOk(log.sends[..|log.sends| - 1]))
    && (log.result.Failed? ==>
          && NoneOk(log.sends) && s'.failures == s.failures + |log.sends|
          && (s'.openedAt.Some? ==> SentWithin(log.sends, log.checkedAt, s'.openedAt.value)))
    // and the first request keeps the minimum interval to the last answered one
    && (log.sends != [] ==> log.sends[0].at >= s.lastRequestAt + cfg.minInterval)
  }

  lemma CallKeepsContract(cfg: Config, s: State, c: Call)
    requires Coherent(cfg, s) && ValidCall(cfg, c)
    ensures CallContract(cfg, s, AfterCall(cfg, s, c).0, AfterCall(cfg, s, c).1)
  {
    var ready := Ready(cfg, s, c);
    if !CoolingDown(cfg, ready) {
      hide RunAttempts;
      LoopFacts(cfg, ready.(openedAt := None), c.steps, 0);
    }
  }

  // ----- runs

  function StateAfter(cfg: Config, s0: State, calls: seq<Call>, n: nat): State
    requires n <= |calls| && forall i :: 0 <= i < |calls| ==> |calls[i].steps| == cfg.retries + 1
  {
    if n == 0 then s0 else AfterCall(cfg, StateAfter(cfg, s0, calls, n - 1), calls[n - 1]).0
  }

  function LogOf(cfg: Config, s0: State, calls: seq<Call>, i: nat): CallLog
    requires i < |calls| && forall i :: 0 <= i < |calls| ==> |calls[i].steps| == cfg.retries + 1
  {
    AfterCall(cfg, StateAfter(cfg, s0, calls, i), calls[i]).1
  }

  /** A run starts from a provider without failures; the environment and the callers do the rest. */
  ghost predicate ValidRun(cfg: Config, s0: State, calls: seq<Call>) {
    && s0.failures == 0 && s0.openedAt.None? && s0.reason.None?
    && forall i :: 0 <= i < |calls| ==> ValidCall(cfg, calls[i])
  }

  ghost function SendsSoFar(cfg: Config, s0: State, calls: seq<Call>, n: nat): seq<Send>
    requires ValidRun(cfg, s0, calls) && n <= |calls|
  {
    if n == 0 then [] else SendsSoFar(cfg, s0, calls, n - 1) + LogOf(cfg, s0, calls, n - 1).sends
  }

  lemma {:induction false} TrailingAfterFailures(before: seq<Send>, sends: seq<Send>)
    requires NoneOk(sends)
    ensures TrailingFailures(before + sends) == TrailingFailures(before) + |sends|
  {
    if sends == [] {
      assert before + sends == before;
    } else {
      var rest := sends[..|sends| - 1];
      TrailingAfterFailures(before, rest);
      assert (before + sends)[..|before + sends| - 1] == before + rest;
    }
  }

  lemma {:induction false} RunIsCoherent(cfg: Config, s0: State, calls: seq<Call>, n: nat)
    requires ValidRun(cfg, s0, calls) && n <= |calls|
    ensures Coherent(cfg, StateAfter(cfg, s0, calls, n))
  {
    if n > 0 {
      hide AfterCall; hide Coherent;
      RunIsCoherent(cfg, s0, calls, n - 1);
      CallKeepsContract(cfg, StateAfter(cfg, s0, calls, n - 1), calls[n - 1]);
    }
  }

  lemma StepContract(cfg: Config, s0: State, calls: seq<Call>, i: nat)
    requires ValidRun(cfg, s0, calls) && i < |calls|
    ensures CallContract(cfg, StateAfter(cfg, s0, calls, i), StateAfter(cfg, s0, calls, i + 1),
                         LogOf(cfg, s0, calls, i))
  {
    hide AfterCall; hide CallContract;
    RunIsCoherent(cfg, s0, calls, i);
    CallKeepsContract(cfg, StateAfter(cfg, s0, calls, i), calls[i]);
  }

  lemma FailuresAfterCall(cfg: Config, s: State, s': State, log: CallLog, before: seq<Send>)
    requires CallContract(cfg, s, s', log) && s.failures == TrailingFailures(before)
    ensures s'.failures == TrailingFailures(before + log.sends)
  {
    match log.result
    case Refused => assert before + log.sends == before;
    case Returned => assert (before + log.sends)[|before + log.sends| - 1] == log.sends[|log.sends| - 1];
    case Failed(_) => TrailingAfterFailures(before, log.sends);
  }

  /** The failure counter is the number of failed requests since the last success. */
  lemma {:induction false} FailuresAreTrailing(cfg: Config, s0: State, calls: seq<Call>, n: nat)
    requires ValidRun(cfg, s0, calls) && n <= |calls|
    ensures StateAfter(cfg, s0, calls, n).failures == TrailingFailures(SendsSoFar(cfg, s0, calls, n))
  {
    hide AfterCall; hide LogOf; hide CallContract;
    if n > 0 {
      hide StateAfter; hide TrailingFailures; hide ValidCall;
      FailuresAreTrailing(cfg, s0, calls, n - 1);
      FailuresStep(cfg, s0, calls, n - 1);
    }
  }

  lemma FailuresStep(cfg: Config, s0: State, calls: seq<Call>, n: nat)
    requires ValidRun(cfg, s0, calls) && n < |calls|
    requires StateAfter(cfg, s0, calls, n).failures == TrailingFailures(SendsSoFar(cfg, s0, calls, n))
    ensures StateAfter(cfg, s0, calls, n + 1).failures == TrailingFailures(SendsSoFar(cfg, s0, calls, n + 1))
  {
    hide AfterCall; hide StateAfter; hide LogOf; hide CallContract; hide TrailingFailures;
    StepContract(cfg, s0, calls, n);
    FailuresAfterCall(cfg, StateAfter(cfg, s0, calls, n), StateAfter(cfg, s0, calls, n + 1),
                      LogOf(cfg, s0, calls, n), SendsSoFar(cfg, s0, calls, n));
  }

  /** At every call boundary: open exactly when the failures since the last success reach the limit. */
  lemma OpenExactlyAtThreshold(cfg: Config, s0: State, calls: seq<Call>, n: nat)
    requires ValidRun(cfg, s0, calls) && n <= |calls|
    ensures StateAfter(cfg, s0, calls, n).openedAt.Some?
      <==> TrailingFailures(SendsSoFar(cfg, s0, calls, n)) >= OpenLimit(cfg)
  {
    RunIsCoherent(cfg, s0, calls, n);
    FailuresAreTrailing(cfg, s0, calls, n);
  }

  // ----- the request rate while the circuit is open

  ghost predicate NoSuccessBetween(cfg: Config, s0: State, calls: seq<Call>, a: nat, b: nat)
    requires ValidRun(cfg, s0, calls) && b <= |calls|
  {
    forall i :: a <= i < b ==> !LogOf(cfg, s0, calls, i).result.Returned?
  }

  /** Without a success the circuit stays open, and its opening time never moves back. */
  lemma {:induction false} StaysOpen(cfg: Config, s0: State, calls: seq<Call>, a: nat, b: nat)
    requires ValidRun(cfg, s0, calls) && a <= b <= |calls|
    requires StateAfter(cfg, s0, calls, a).openedAt.Some? && NoSuccessBetween(cfg, s0, calls, a, b)
    ensures StateAfter(cfg, s0, calls, b).openedAt.Some?
    ensures StateAfter(cfg, s0, calls, a).openedAt.value <= StateAfter(cfg, s0, calls, b).openedAt.value
  {
    hide AfterCall; hide StateAfter; hide LogOf; hide CallContract; hide Coherent;
    if a < b {
      StaysOpen(cfg, s0, calls, a, b - 1);
      StepContract(cfg, s0, calls, b - 1);
      RunIsCoherent(cfg, s0, calls, b - 1);
      StaysOpenOnce(cfg, StateAfter(cfg, s0, calls, b - 1), StateAfter(cfg, s0, calls, b),
                    LogOf(cfg, s0, calls, b - 1));
    }
  }

  /** A call that does not succeed leaves an open breaker open, and opened no earlier. */
  lemma StaysOpenOnce(cfg: Config, s: State, s': State, log: CallLog)
    requires Coherent(cfg, s) && CallContract(cfg, s, s', log) && s.openedAt.Some? && !log.result.Returned?
    ensures s'.openedAt.Some? && s.openedAt.value <= s'.openedAt.value
  {
    if log.result.Failed? {
      assert s'.openedAt.Some?;
      assert log.checkedAt <= log.sends[0].at <= s'.openedAt.value;
    }
  }

  /** Two calls that both reach the network, with no success in between, are a cooldown apart. */
  lemma SendsAreSpaced(cfg: Config, s0: State, calls: seq<Call>, i: nat, j: nat, x: Send, y: Send)
    requires ValidRun(cfg, s0, calls) && i < j < |calls|
    requires StateAfter(cfg, s0, calls, i + 1).openedAt.Some? && NoSuccessBetween(cfg, s0, calls, i, j)
    requires x in LogOf(cfg, s0, calls, i).sends && y in LogOf(cfg, s0, calls, j).sends
    ensures y.at >= x.at + cfg.cooldown
  {
    hide AfterCall; hide StateAfter; hide LogOf;
    StepContract(cfg, s0, calls, i);
    StepContract(cfg, s0, calls, j);
    StaysOpen(cfg, s0, calls, i + 1, j);
    assert !LogOf(cfg, s0, calls, i).result.Returned?;
  }

  lemma SpacedSince(cfg: Config, s0: State, calls: seq<Call>, a: nat, i: nat, j: nat, x: Send, y: Send)
    requires ValidRun(cfg, s0, calls) && a <= i < j < |calls|
    requires StateAfter(cfg, s0, calls, a + 1).openedAt.Some? && NoSuccessBetween(cfg, s0, calls, a, j)
    requires x in LogOf(cfg, s0, calls, i).sends && y in LogOf(cfg, s0, calls, j).sends
    ensures y.at >= x.at + cfg.cooldown
  {
    hide AfterCall; hide StateAfter; hide LogOf;
    StaysOpen(cfg, s0, calls, a + 1, i + 1);
    SendsAreSpaced(cfg, s0, calls, i, j, x, y);
  }

  ghost predicate SendsIn(cfg: Config, s0: State, calls: seq<Call>, i: nat, from: real, to: real)
    requires ValidRun(cfg, s0, calls) && i < |calls|
  {
    exists x :: x in LogOf(cfg, s0, calls, i).sends && from <= x.at <= to
  }

  lemma SendInWindow(cfg: Config, s0: State, calls: seq<Call>, i: nat, from: real, to: real) returns (x: Send)
    requires ValidRun(cfg, s0, calls) && i < |calls| && SendsIn(cfg, s0, calls, i, from, to)
    ensures x in LogOf(cfg, s0, calls, i).sends && from <= x.at <= to
  {
    x :| x in LogOf(cfg, s0, calls, i).sends && from <= x.at <= to;
  }

  /** How many of the requests fall into a time window. */
  function CountIn(sends: seq<Send>, from: real, to: real): (n: nat)
    ensures n <= |sends|
    ensures n > 0 <==> exists x :: x in sends && from <= x.at <= to
  {
    if sends == [] then 0
    else
      var last, rest := sends[|sends| - 1], sends[..|sends| - 1];
      assert sends == rest + [last];
      CountIn(rest, from, to) + if from <= last.at <= to then 1 else 0
  }

  /** Requests of the calls a <= i < b inside a time window. */
  ghost function RequestsInWindow(cfg: Config, s0: State, calls: seq<Call>, a: nat, b: nat, from: real, to: real): nat
    requires ValidRun(cfg, s0, calls) && a <= b <= |calls|
  {
    if a == b then 0
    else RequestsInWindow(cfg, s0, calls, a, b - 1, from, to) + CountIn(LogOf(cfg, s0, calls, b - 1).sends, from, to)
  }

  /** The calls among them that put a request into the window. */
  ghost function ActiveCalls(cfg: Config, s0: State, calls: seq<Call>, a: nat, b: nat, from: real,
                             to: real): (ks: seq<nat>)
    requires ValidRun(cfg, s0, calls) && a <= b <= |calls|
    ensures forall k :: 0 <= k < |ks| ==> a <= ks[k] < b && SendsIn(cfg, s0, calls, ks[k], from, to)
  {
    if a == b then []
    else
      var rest := ActiveCalls(cfg, s0, calls, a, b - 1, from, to);
      if SendsIn(cfg, s0, calls, b - 1, from, to) then rest + [b - 1] else rest
  }

  /** The most requests n calls can send. */
  function CallBudget(cfg: Config, n: nat): nat { n * (cfg.retries + 1) }

  /** The time n cooldowns take. */
  function Cooldowns(cfg: Config, n: nat): real { n as real * cfg.cooldown }

  lemma OneMoreCall(cfg: Config, n: nat)
    ensures CallBudget(cfg, 0) == 0
    ensures CallBudget(cfg, n + 1) == CallBudget(cfg, n) + cfg.retries + 1
    ensures Cooldowns(cfg, 0) == 0.0
    ensures Cooldowns(cfg, n + 1) == Cooldowns(cfg, n) + cfg.cooldown
  {}

  lemma {:induction false} RequestsBoundedByCalls(
      cfg: Config, s0: State, calls: seq<Call>, a: nat, b: nat, from: real, to: real)
    requires ValidRun(cfg, s0, calls) && a <= b <= |calls|
    ensures RequestsInWindow(cfg, s0, calls, a, b, from, to)
      <= CallBudget(cfg, |ActiveCalls(cfg, s0, calls, a, b, from, to)|)
  {
    hide CallBudget; hide Cooldowns; hide AfterCall; hide StateAfter; hide LogOf; hide SendsIn; hide CountIn;
    OneMoreCall(cfg, 0);
    if a < b {
      RequestsBoundedByCalls(cfg, s0, calls, a, b - 1, from, to);
      CallCountBound(cfg, s0, calls, b - 1, from, to);
      OneMoreCall(cfg, |ActiveCalls(cfg, s0, calls, a, b - 1, from, to)|);
    }
  }

  lemma CallCountBound(cfg: Config, s0: State, calls: seq<Call>, i: nat, from: real, to: real)
    requires ValidRun(cfg, s0, calls) && i < |calls|
    ensures CountIn(LogOf(cfg, s0, calls, i).sends, from, to)
      <= if SendsIn(cfg, s0, calls, i, from, to) then cfg.retries + 1 else 0
  {
    hide AfterCall; hide StateAfter; hide LogOf;
    StepContract(cfg, s0, calls, i);
  }

  /** The k-th active call sends at least k cooldowns after the first one. */
  lemma {:induction false} ActiveCallsSpread(
      cfg: Config, s0: State, calls: seq<Call>, a: nat, b: nat, from: real, to: real) returns (last: Send)
    requires ValidRun(cfg, s0, calls) && a < b <= |calls| && cfg.cooldown >= 0.0
    requires StateAfter(cfg, s0, calls, a + 1).openedAt.Some? && NoSuccessBetween(cfg, s0, calls, a, b - 1)
    requires ActiveCalls(cfg, s0, calls, a, b, from, to) != []
    ensures var ks := ActiveCalls(cfg, s0, calls, a, b, from, to);
      && last in LogOf(cfg, s0, calls, ks[|ks| - 1]).sends && from <= last.at <= to
      && last.at >= from + Cooldowns(cfg, |ks| - 1)
  {
    hide ValidRun; hide AfterCall; hide StateAfter; hide LogOf; hide CallBudget; hide Cooldowns;
    hide SendsIn; hide NoSuccessBetween;
    OneMoreCall(cfg, 0);
    FewerCalls(cfg, s0, calls, a, b);
    ActiveStep(cfg, s0, calls, a, b, from, to);
    hide ActiveCalls;
    var rest := ActiveCalls(cfg, s0, calls, a, b - 1, from, to);
    if !SendsIn(cfg, s0, calls, b - 1, from, to) {
      last := ActiveCallsSpread(cfg, s0, calls, a, b - 1, from, to);
      return;
    }
    last := SendInWindow(cfg, s0, calls, b - 1, from, to);
    if rest != [] {
      var earlier := ActiveCallsSpread(cfg, s0, calls, a, b - 1, from, to);
      SpacedSince(cfg, s0, calls, a, rest[|rest| - 1], b - 1, earlier, last);
      OneMoreCall(cfg, |rest| - 1);
    }
  }

  lemma ActiveStep(cfg: Config, s0: State, calls: seq<Call>, a: nat, b: nat, from: real, to: real)
    requires ValidRun(cfg, s0, calls) && a < b <= |calls|
    ensures ActiveCalls(cfg, s0, calls, a, a, from, to) == []
    ensures ActiveCalls(cfg, s0, calls, a, b, from, to) ==
      ActiveCalls(cfg, s0, calls, a, b - 1, from, to)
        + if SendsIn(cfg, s0, calls, b - 1, from, to) then [b - 1] else []
  {
    hide SendsIn; hide LogOf; hide StateAfter;
  }

  lemma FewerCalls(cfg: Config, s0: State, calls: seq<Call>, a: nat, b: nat)
    requires ValidRun(cfg, s0, calls) && a < b <= |calls| && NoSuccessBetween(cfg, s0, calls, a, b - 1)
    ensures a < b - 1 ==> NoSuccessBetween(cfg, s0, calls, a, b - 2)
  {
    hide LogOf; hide StateAfter; hide ValidRun;
  }

  /**
   The rate bound. From the call that opened the circuit until the first success, a window of length T
   holds requests of at most floor(T / cooldown) + 1 calls, each sending at most retries + 1 of them.
   */
  lemma RequestRateBound(cfg: Config, s0: State, calls: seq<Call>, a: nat, b: nat, from: real, window: real)
    requires ValidRun(cfg, s0, calls) && a < b <= |calls| && cfg.cooldown > 0.0 && window >= 0.0
    requires StateAfter(cfg, s0, calls, a + 1).openedAt.Some? && NoSuccessBetween(cfg, s0, calls, a, b - 1)
    ensures |ActiveCalls(cfg, s0, calls, a, b, from, from + window)| <= (window / cfg.cooldown).Floor + 1
    ensures RequestsInWindow(cfg, s0, calls, a, b, from, from + window)
      <= ((window / cfg.cooldown).Floor + 1) * (cfg.retries + 1)
  {
    hide AfterCall; hide StateAfter; hide LogOf; hide NoSuccessBetween; hide ActiveCalls; hide RequestsInWindow;
    var n := |ActiveCalls(cfg, s0, calls, a, b, from, from + window)|;
    RequestsBoundedByCalls(cfg, s0, calls, a, b, from, from + window);
    if n > 0 {
      var last := ActiveCallsSpread(cfg, s0, calls, a, b, from, from + window);
    }
    FloorBound(n, window, cfg.cooldown);
    TimesMono(n, (window / cfg.cooldown).Floor + 1, cfg.retries + 1);
  }

  lemma FloorBound(n: nat, window: real, cooldown: real)
    requires cooldown > 0.0 && window >= 0.0
    requires n > 0 ==> (n - 1) as real * cooldown <= window
    ensures 0 <= (window / cooldown).Floor && n <= (window / cooldown).Floor + 1
  {
    var quotient := window / cooldown;
    DivMul(window, cooldown);
    if n > 0 && quotient < (n - 1) as real { MulMonoStrict(quotient, (n - 1) as real, cooldown); }
    if quotient < 0.0 { MulMonoStrict(quotient, 0.0, cooldown); }
  }

  lemma TimesMono(x: nat, y: nat, k: nat)
    requires x <= y
    ensures x * k <= y * k
  {}

  // ----- the trial after the cooldown

  /**
   The trial after a cooldown is one call, not one request: whatever the state, an environment exists in
   which the next call sends retries + 1 requests, all of them failing.
   */
  lemma {:induction false} AllRetriesSpent(cfg: Config, s: State, steps: seq<Step>, attempt: nat)
    requires |steps| == cfg.retries + 1 && attempt <= cfg.retries
    requires forall i :: 0 <= i < |steps| ==> steps[i].reply.TransportError?
    ensures |RunAttempts(cfg, s, steps, attempt).sends| == cfg.retries + 1 - attempt
    ensures RunAttempts(cfg, s, steps, attempt).result.Failed?
    decreases cfg.retries - attempt
  {
    RunAttemptsStep(cfg, s, steps, attempt);
    if attempt < cfg.retries {
      AllRetriesSpent(cfg, Paused(FailedAttempt(cfg, s, steps[attempt]), steps[attempt], attempt), steps, attempt + 1);
    }
  }

  lemma WorstTrial(cfg: Config, s: State) returns (c: Call)
    requires Coherent(cfg, s)
    ensures ValidCall(cfg, c)
    ensures AfterCall(cfg, s, c).1.result.Failed? && |AfterCall(cfg, s, c).1.sends| == cfg.retries + 1
  {
    var step := Step(TransportError, 0.0, 0.0, 0.0, 0.0);
    var steps := seq(cfg.retries + 1, i => step);
    c := Call(MaxReal(0.0, cfg.cooldown), 0.0, steps);
    var ready := Ready(cfg, s, c);
    hide RunAttempts;
    assert !CoolingDown(cfg, ready);
    AllRetriesSpent(cfg, ready.(openedAt := None), steps, 0);
  }

  /** A half-open call is a single request in every environment exactly when there are no retries. */
  lemma SingleTrialOnlyWithoutRetries(cfg: Config, s: State)
    requires Coherent(cfg, s) && s.openedAt.Some?
    ensures (forall c :: ValidCall(cfg, c) ==> |AfterCall(cfg, s, c).1.sends| <= 1) <==> cfg.retries == 0
  {
    hide AfterCall;
    if cfg.retries == 0 {
      forall c | ValidCall(cfg, c) ensures |AfterCall(cfg, s, c).1.sends| <= 1 {
        CallKeepsContract(cfg, s, c);
      }
    } else {
      var c := WorstTrial(cfg, s);
    }
  }
}
