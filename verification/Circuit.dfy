/**
 The FIPIRAN circuit breaker and its retry loop as a timed state machine. The environment decides every
 answer and how long everything takes; the clock never runs backwards.
 */
module Circuit {
  import opened Common

  /** How one request ends. Status carries the Retry-After value when the header is a number. */
  datatype Reply =
    | Accepted
    | TransportError
    | Status(code: nat, retryAfter: Option<nat>)
    | Blocked
    | BadContract

  /** One attempt: the reply, the time it took, and what the clock does around it. */
  datatype Step = Step(reply: Reply, took: real, lag: real, jitter: real, overrun: real)

  datatype Config = Config(threshold: int, cooldown: real, retries: nat, minInterval: real)

  datatype State = State(
    failures: nat, openedAt: Option<real>, reason: Option<Reply>, lastRequestAt: real, clock: real)

  datatype Send = Send(at: real, ok: bool)

  datatype CallResult = Refused | Returned | Failed(reply: Reply)

  /** What one call did: when it passed or failed the circuit check, and the requests it sent. */
  datatype CallLog = CallLog(checkedAt: real, sends: seq<Send>, result: CallResult)

  ghost predicate ValidStep(x: Step) {
    x.took >= 0.0 && x.lag >= 0.0 && 0.0 <= x.jitter < 1.0 && x.overrun >= 0.0
  }

  ghost predicate ValidSteps(cfg: Config, steps: seq<Step>) {
    |steps| == cfg.retries + 1 && forall i :: 0 <= i < |steps| ==> ValidStep(steps[i])
  }

  const RETRY_STATUSES: set<nat> := {408, 425, 429, 500, 502, 503, 504}

  /** Blocked pages, broken contracts and permanent statuses end the retry loop. */
  predicate Permanent(reply: Reply) {
    || reply.Blocked?
    || reply.BadContract?
    || (reply.Status? && reply.code != 0 && reply.code !in RETRY_STATUSES)
  }

  function TwoToThe(n: nat): nat {
    if n == 0 then 1 else 2 * TwoToThe(n - 1)
  }

  function Delay(x: Step, attempt: nat): real {
    var base := if x.reply.Status? && x.reply.retryAfter.Some? then x.reply.retryAfter.value else TwoToThe(attempt);
    MinReal(base as real + x.jitter * 0.25, 30.0)
  }

  // ----- the breaker's own steps

  function Succeed(s: State): State { s.(failures := 0, openedAt := None, reason := None) }

  function Fail(cfg: Config, s: State, reply: Reply): State {
    s.(failures := s.failures + 1,
       reason := Some(reply),
       openedAt := if s.failures + 1 >= cfg.threshold then Some(s.clock) else s.openedAt)
  }

  /** The state when the reply of a request sent now is known. */
  function Replied(s: State, x: Step): State {
    var t := s.clock + x.took;
    s.(clock := t, lastRequestAt := if x.reply.TransportError? then s.lastRequestAt else t)
  }

  function FailedAttempt(cfg: Config, s: State, x: Step): State {
    var r := Replied(s, x);
    Fail(cfg, r.(clock := r.clock + x.lag), x.reply)
  }

  /** The pause before a retry: only while the circuit is still closed. */
  function Paused(s: State, x: Step, attempt: nat): State {
    if s.openedAt.Some? then s else s.(clock := s.clock + Delay(x, attempt) + x.overrun)
  }

  datatype Attempts = Attempts(state: State, sends: seq<Send>, result: CallResult)

  /** The retry loop from a given attempt on. */
  function RunAttempts(cfg: Config, s: State, steps: seq<Step>, attempt: nat): Attempts
    requires |steps| == cfg.retries + 1 && attempt <= cfg.retries
    decreases cfg.retries - attempt
  {
    var x := steps[attempt];
    if x.reply.Accepted? then
      Attempts(Succeed(Replied(s, x)), [Send(s.clock, true)], Returned)
    else
      var failed := FailedAttempt(cfg, s, x);
      if Permanent(x.reply) || attempt == cfg.retries then
        Attempts(failed, [Send(s.clock, false)], Failed(x.reply))
      else
        var rest := RunAttempts(cfg, Paused(failed, x, attempt), steps, attempt + 1);
        rest.(sends := [Send(s.clock, false)] + rest.sends)
  }

  lemma RunAttemptsStep(cfg: Config, s: State, steps: seq<Step>, attempt: nat)
    requires |steps| == cfg.retries + 1 && attempt <= cfg.retries
    ensures var x := steps[attempt];
      RunAttempts(cfg, s, steps, attempt)
      == if x.reply.Accepted? then Attempts(Succeed(Replied(s, x)), [Send(s.clock, true)], Returned)
         else if Permanent(x.reply) || attempt == cfg.retries
         then Attempts(FailedAttempt(cfg, s, x), [Send(s.clock, false)], Failed(x.reply))
         else var rest := RunAttempts(cfg, Paused(FailedAttempt(cfg, s, x), x, attempt), steps, attempt + 1);
              rest.(sends := [Send(s.clock, false)] + rest.sends)
  {}

  /** The clock after the minimum-interval wait. */
  function Waited(cfg: Config, s: State, overrun: real): State {
    var wait := cfg.minInterval - (s.clock - s.lastRequestAt);
    if wait > 0.0 then s.(clock := s.clock + wait + overrun) else s
  }

  predicate CoolingDown(cfg: Config, s: State) {
    s.openedAt.Some? && s.clock - s.openedAt.value < cfg.cooldown
  }

  /** One call: idle is the time that passed since the last one. */
  datatype Call = Call(idle: real, overrun: real, steps: seq<Step>)

  ghost predicate ValidCall(cfg: Config, c: Call) {
    c.idle >= 0.0 && c.overrun >= 0.0 && ValidSteps(cfg, c.steps)
  }

  function Ready(cfg: Config, s: State, c: Call): State {
    Waited(cfg, s.(clock := s.clock + c.idle), c.overrun)
  }

  function AfterCall(cfg: Config, s: State, c: Call): (State, CallLog)
    requires |c.steps| == cfg.retries + 1
  {
    var ready := Ready(cfg, s, c);
    if CoolingDown(cfg, ready) then (ready, CallLog(ready.clock, [], Refused))
    else
      var a := RunAttempts(cfg, ready.(openedAt := None), c.steps, 0);
      (a.state, CallLog(ready.clock, a.sends, a.result))
  }

  // ----- which reply ends a call

  /** An accepted answer ends a call, and so does a blocked page, a broken contract or a status not worth a retry. */
  ghost predicate EndsCall(reply: Reply) {
    match reply
    case Accepted => true
    case TransportError => false
    case Blocked => true
    case BadContract => true
    case Status(code, _) =>
      && code != 0 && code != 408 && code != 425 && code != 429
      && code != 500 && code != 502 && code != 503 && code != 504
  }

  /** Attempt n is the first whose reply ends the call, or the last one allowed. */
  ghost predicate LastAttempt(cfg: Config, steps: seq<Step>, n: nat)
    requires |steps| == cfg.retries + 1
  {
    && n <= cfg.retries
    && (forall j :: 0 <= j < n ==> !EndsCall(steps[j].reply))
    && (n == cfg.retries || EndsCall(steps[n].reply))
  }

  lemma {:induction false} SomeLastAttempt(cfg: Config, steps: seq<Step>, from: nat) returns (n: nat)
    requires |steps| == cfg.retries + 1 && from <= cfg.retries
    requires forall j :: 0 <= j < from ==> !EndsCall(steps[j].reply)
    ensures LastAttempt(cfg, steps, n)
    decreases cfg.retries - from
  {
    n := from;
    if from < cfg.retries && !EndsCall(steps[from].reply) { n := SomeLastAttempt(cfg, steps, from + 1); }
  }

  lemma PermanentEnds(reply: Reply)
    ensures reply.Accepted? || Permanent(reply) <==> EndsCall(reply)
  {}

  /** The requests and the result of a call that ends with attempt n. */
  ghost predicate AnsweredBy(sends: seq<Send>, result: CallResult, reply: Reply, count: nat) {
    && |sends| == count
    && (forall k :: 0 <= k < count ==> (sends[k].ok <==> k == count - 1 && reply.Accepted?))
    && result == if reply.Accepted? then Returned else Failed(reply)
  }

  lemma AnsweredAppend(sends: seq<Send>, result: CallResult, reply: Reply, count: nat, x: Send)
    requires AnsweredBy(sends, result, reply, count) && count > 0 && !x.ok
    ensures AnsweredBy([x] + sends, result, reply, count + 1)
  {}

  lemma {:induction false} LoopEndsWith(cfg: Config, s: State, steps: seq<Step>, attempt: nat, n: nat)
    requires |steps| == cfg.retries + 1 && LastAttempt(cfg, steps, n) && attempt <= n
    ensures var a := RunAttempts(cfg, s, steps, attempt);
      AnsweredBy(a.sends, a.result, steps[n].reply, n + 1 - attempt)
    decreases n - attempt
  {
    var x := steps[attempt];
    PermanentEnds(x.reply);
    RunAttemptsStep(cfg, s, steps, attempt);
    hide RunAttempts; hide Permanent; hide EndsCall; hide FailedAttempt; hide Paused; hide Succeed; hide Replied;
    if attempt < n {
      var paused := Paused(FailedAttempt(cfg, s, x), x, attempt);
      LoopEndsWith(cfg, paused, steps, attempt + 1, n);
      var rest := RunAttempts(cfg, paused, steps, attempt + 1);
      AnsweredAppend(rest.sends, rest.result, steps[n].reply, n - attempt, Send(s.clock, false));
    }
  }

  /** A call that sends anything ends with the first reply that ends a call, or with the last attempt. */
  ghost predicate EndsWithReply(cfg: Config, steps: seq<Step>, log: CallLog)
    requires |steps| == cfg.retries + 1
  {
    forall n: nat :: LastAttempt(cfg, steps, n) ==> AnsweredBy(log.sends, log.result, steps[n].reply, n + 1)
  }

  lemma CallEndsWithReply(cfg: Config, s: State, c: Call)
    requires |c.steps| == cfg.retries + 1
    ensures var log := AfterCall(cfg, s, c).1;
      if log.result.Refused? then log.sends == [] else EndsWithReply(cfg, c.steps, log)
  {
    var ready := Ready(cfg, s, c);
    if !CoolingDown(cfg, ready) {
      hide RunAttempts; hide Permanent;
      var a := RunAttempts(cfg, ready.(openedAt := None), c.steps, 0);
      var log := CallLog(ready.clock, a.sends, a.result);
      forall n: nat | LastAttempt(cfg, c.steps, n)
        ensures AnsweredBy(log.sends, log.result, c.steps[n].reply, n + 1)
      {
        LoopEndsWith(cfg, ready.(openedAt := None), c.steps, 0, n);
      }
      var n := SomeLastAttempt(cfg, c.steps, 0);
    }
  }

  // ----- the provider object

  class FipiranProvider {
    const cfg: Config
    var failures: nat
    var openedAt: Option<real>
    var reason: Option<Reply>
    var lastRequestAt: real
    var clock: real

    ghost function Abstract(): State
      reads this
    {
      State(failures, openedAt, reason, lastRequestAt, clock)
    }

    constructor (cfg: Config, now: real)
      ensures this.cfg == cfg && Abstract() == State(0, None, None, 0.0, now)
    {
      this.cfg := cfg;
      failures, openedAt, reason, lastRequestAt, clock := 0, None, None, 0.0, now;
    }

    /** Raises (returns false) while cooling down; otherwise lets the call through with the circuit closed. */
    method CheckCircuit() returns (passed: bool)
      modifies this`openedAt
      ensures passed == !CoolingDown(cfg, old(Abstract()))
      ensures Abstract() == if passed then old(Abstract()).(openedAt := None) else old(Abstract())
    {
      if openedAt.None? { return true; }
      if clock - openedAt.value < cfg.cooldown { return false; }
      openedAt := None;
      return true;
    }

    method RecordFailure(reply: Reply)
      modifies this`failures, this`reason, this`openedAt
      ensures Abstract() == Fail(cfg, old(Abstract()), reply)
    {
      failures := failures + 1;
      reason := Some(reply);
      if failures >= cfg.threshold { openedAt := Some(clock); }
    }

    method RecordSuccess()
      modifies this`failures, this`reason, this`openedAt
      ensures Abstract() == Succeed(old(Abstract()))
    {
      failures, openedAt, reason := 0, None, None;
    }

    /** Sends one request and records how it ended. */
    method TryOnce(x: Step)
      modifies this
      ensures Abstract() == if x.reply.Accepted? then Succeed(Replied(old(Abstract()), x))
                            else FailedAttempt(cfg, old(Abstract()), x)
    {
      clock := clock + x.took;
      if !x.reply.TransportError? { lastRequestAt := clock; }
      if x.reply.Accepted? {
        RecordSuccess();
      } else {
        clock := clock + x.lag;
        RecordFailure(x.reply);
      }
    }

    /** The retry loop: the circuit is not checked again, it only decides whether a retry waits. */
    method SendWithRetries(steps: seq<Step>) returns (ghost sends: seq<Send>, result: CallResult)
      requires |steps| == cfg.retries + 1
      modifies this
      ensures Attempts(Abstract(), sends, result) == RunAttempts(cfg, old(Abstract()), steps, 0)
    {
      hide RunAttempts; hide Permanent; hide Delay; hide FailedAttempt; hide Succeed; hide Replied;
      ghost var goal := RunAttempts(cfg, Abstract(), steps, 0);
      sends := [];
      var attempt := 0;
      while true
        invariant 0 <= attempt <= cfg.retries
        invariant goal == Prepend(sends, RunAttempts(cfg, Abstract(), steps, attempt))
        decreases cfg.retries - attempt
      {
        var x := steps[attempt];
        ghost var sent := Send(clock, x.reply.Accepted?);
        RunAttemptsStep(cfg, Abstract(), steps, attempt);
        TryOnce(x);
        if x.reply.Accepted? {
          sends := sends + [sent];
          return sends, Returned;
        }
        if Permanent(x.reply) || attempt == cfg.retries {
          sends := sends + [sent];
          return sends, Failed(x.reply);
        }
        if openedAt.None? { clock := clock + Delay(x, attempt) + x.overrun; }
        PrependMore(sends, sent, RunAttempts(cfg, Abstract(), steps, attempt + 1));
        sends := sends + [sent];
        attempt := attempt + 1;
      }
    }

    method Request(c: Call) returns (ghost log: CallLog, result: CallResult)
      requires |c.steps| == cfg.retries + 1
      modifies this
      ensures (Abstract(), log) == AfterCall(cfg, old(Abstract()), c)
      ensures result == log.result
      ensures if result.Refused? then log.sends == [] else EndsWithReply(cfg, c.steps, log)
    {
      CallEndsWithReply(cfg, Abstract(), c);
      clock := clock + c.idle;
      var wait := cfg.minInterval - (clock - lastRequestAt);
      if wait > 0.0 { clock := clock + wait + c.overrun; }
      assert Abstract() == Ready(cfg, old(Abstract()), c);
      ghost var checkedAt := clock;
      hide RunAttempts;
      var passed := CheckCircuit();
      if !passed { return CallLog(checkedAt, [], Refused), Refused; }
      ghost var sends;
      sends, result := SendWithRetries(c.steps);
      log := CallLog(checkedAt, sends, result);
    }
  }

  ghost function Prepend(sends: seq<Send>, a: Attempts): Attempts { a.(sends := sends + a.sends) }

  lemma PrependMore(sends: seq<Send>, x: Send, a: Attempts)
    ensures Prepend(sends + [x], a) == Prepend(sends, a.(sends := [x] + a.sends))
  {
    assert sends + ([x] + a.sends) == (sends + [x]) + a.sends;
  }
}
