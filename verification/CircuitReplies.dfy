/**
 One call of the provider, decided by the replies it gets: how many requests it sends and when, which reply is its
 result, and what the breaker remembers, in status codes, counts and seconds.
 */
module CircuitReplies {
  import opened Common
  import opened Circuit
  import opened CircuitRuns
  import opened CircuitPauses

  // ----- what the breaker remembers

  /** The breaker after the attempts from one on to attempt n: the last reply and the failures tell everything. */
  ghost predicate Remembers(cfg: Config, s: State, after: State, reply: Reply, attempts: nat) {
    if reply.Accepted? then after.failures == 0 && after.openedAt.None? && after.reason.None?
    else
      && after.failures == s.failures + attempts && after.reason == Some(reply)
      && after.openedAt == if s.failures + attempts >= cfg.threshold then Some(after.clock) else s.openedAt
  }

  /** Opened by an earlier failure only when the threshold was reached already. */
  ghost predicate OpenAtThreshold(cfg: Config, s: State) { s.openedAt.Some? ==> s.failures >= cfg.threshold }

  lemma PausedRemembers(cfg: Config, s: State, x: Step, attempt: nat)
    ensures var paused := Paused(FailedAttempt(cfg, s, x), x, attempt);
      && paused.failures == s.failures + 1
      && (OpenAtThreshold(cfg, s) ==> OpenAtThreshold(cfg, paused))
      && (s.failures + 1 < cfg.threshold ==> paused.openedAt == s.openedAt)
  {
    hide Delay;
  }

  lemma {:induction false} LoopRemembers(cfg: Config, s: State, steps: seq<Step>, attempt: nat, n: nat)
    requires |steps| == cfg.retries + 1 && LastAttempt(cfg, steps, n) && attempt <= n && OpenAtThreshold(cfg, s)
    ensures Remembers(cfg, s, RunAttempts(cfg, s, steps, attempt).state, steps[n].reply, n + 1 - attempt)
    decreases n - attempt
  {
    var x := steps[attempt];
    PermanentEnds(x.reply);
    RunAttemptsStep(cfg, s, steps, attempt);
    hide RunAttempts; hide Permanent; hide EndsCall;
    if attempt < n {
      PausedRemembers(cfg, s, x, attempt);
      var paused := Paused(FailedAttempt(cfg, s, x), x, attempt);
      hide FailedAttempt; hide Paused;
      LoopRemembers(cfg, paused, steps, attempt + 1, n);
    }
  }

  // ----- the last answered request

  /** The moment of the last reply of attempts up to n that was not a transport error; without one, what it was. */
  ghost function LastAnswered(sends: seq<Send>, steps: seq<Step>, from: nat, before: real, count: nat): real
    requires count <= |sends| && from + count <= |steps|
  {
    if count == 0 then before
    else if steps[from + count - 1].reply.TransportError? then LastAnswered(sends, steps, from, before, count - 1)
    else sends[count - 1].at + steps[from + count - 1].took
  }

  lemma {:induction false} LastAnsweredCons(x: Send, sends: seq<Send>, steps: seq<Step>, from: nat, before: real,
                                            count: nat)
    requires count <= |sends| && from + 1 + count <= |steps|
    ensures LastAnswered([x] + sends, steps, from, before, count + 1)
      == LastAnswered(sends, steps, from + 1,
                      if steps[from].reply.TransportError? then before else x.at + steps[from].took, count)
    decreases count
  {
    if count > 0 {
      LastAnsweredCons(x, sends, steps, from, before, count - 1);
      assert ([x] + sends)[count] == sends[count - 1];
      assert from + 1 + count - 1 == from + (count + 1) - 1;
    } else {
      assert ([x] + sends)[0] == x;
      assert LastAnswered([x] + sends, steps, from, before, 0) == before;
    }
  }

  lemma PausedAnswered(cfg: Config, s: State, x: Step, attempt: nat)
    ensures Paused(FailedAttempt(cfg, s, x), x, attempt).lastRequestAt
         == if x.reply.TransportError? then s.lastRequestAt else s.clock + x.took
  {
    hide Delay;
  }

  /** The time when the last request has been answered and, if it failed, recorded. */
  ghost function DoneAt(x: Send, step: Step): real { x.at + step.took + if step.reply.Accepted? then 0.0 else step.lag }

  lemma {:induction false} LoopAnswered(cfg: Config, s: State, steps: seq<Step>, attempt: nat, n: nat)
    requires |steps| == cfg.retries + 1 && LastAttempt(cfg, steps, n) && attempt <= n
    ensures var a := RunAttempts(cfg, s, steps, attempt);
      && |a.sends| == n + 1 - attempt
      && a.state.lastRequestAt == LastAnswered(a.sends, steps, attempt, s.lastRequestAt, |a.sends|)
      && a.state.clock == DoneAt(a.sends[n - attempt], steps[n])
    decreases n - attempt
  {
    LoopEndsWith(cfg, s, steps, attempt, n);
    var x := steps[attempt];
    PermanentEnds(x.reply);
    RunAttemptsStep(cfg, s, steps, attempt);
    hide RunAttempts; hide Permanent; hide EndsCall;
    if attempt < n {
      PausedAnswered(cfg, s, x, attempt);
      var paused := Paused(FailedAttempt(cfg, s, x), x, attempt);
      hide FailedAttempt; hide Paused;
      LoopAnswered(cfg, paused, steps, attempt + 1, n);
      var rest := RunAttempts(cfg, paused, steps, attempt + 1);
      LastAnsweredCons(Send(s.clock, false), rest.sends, steps, attempt, s.lastRequestAt, |rest.sends|);
    } else {
      assert LastAnswered([Send(s.clock, true)], steps, attempt, s.lastRequestAt, 0) == s.lastRequestAt;
      assert LastAnswered([Send(s.clock, false)], steps, attempt, s.lastRequestAt, 0) == s.lastRequestAt;
    }
  }

  // ----- one call

  /** The moment of the circuit check: on arrival, or once the minimum interval since the last answer is over. */
  ghost predicate ChecksAt(cfg: Config, s: State, c: Call, at: real) {
    var arrival, allowed := s.clock + c.idle, s.lastRequestAt + cfg.minInterval;
    at == if arrival < allowed then allowed + c.overrun else arrival
  }

  /** The pause after attempt k in seconds: what the reply announced or 1, 2, 4, 8, 16, with jitter, 30 at most. */
  ghost function PauseAfter(x: Step, k: nat): real {
    var announced := x.reply.Status? && x.reply.retryAfter.Some?;
    var base := if announced then x.reply.retryAfter.value as real
                else if k >= 5 then 30.0 else [1.0, 2.0, 4.0, 8.0, 16.0][k];
    if base + 0.25 * x.jitter <= 30.0 then base + 0.25 * x.jitter else 30.0
  }

  lemma {:induction false} DoublesPast(k: nat)
    requires k >= 5
    ensures TwoToThe(k) >= 32
  {
    if k == 5 {
      assert TwoToThe(3) == 8 && TwoToThe(5) == 4 * TwoToThe(3);
    } else {
      DoublesPast(k - 1);
    }
  }

  lemma DelayIsPause(x: Step, k: nat)
    requires x.jitter >= 0.0
    ensures Delay(x, k) == PauseAfter(x, k)
  {
    if k >= 5 {
      DoublesPast(k);
    } else {
      assert TwoToThe(0) == 1 && TwoToThe(1) == 2 && TwoToThe(2) == 4;
      assert TwoToThe(3) == 2 * TwoToThe(2) && TwoToThe(4) == 4 * TwoToThe(2);
    }
  }

  /** Requests follow each other after reply, bookkeeping and, until the failures open the breaker, the pause. */
  ghost predicate SentInTurn(cfg: Config, failures: nat, sends: seq<Send>, steps: seq<Step>) {
    forall k :: 0 <= k < |sends| - 1 && k < |steps| ==>
      sends[k + 1].at == sends[k].at + steps[k].took + steps[k].lag +
        if failures + k + 1 >= cfg.threshold then 0.0 else PauseAfter(steps[k], k) + steps[k].overrun
  }

  lemma LoopSentInTurn(cfg: Config, s: State, c: Call)
    requires ValidSteps(cfg, c.steps) && s.openedAt.None?
    ensures SentInTurn(cfg, s.failures, RunAttempts(cfg, s, c.steps, 0).sends, c.steps)
    ensures RunAttempts(cfg, s, c.steps, 0).sends != []
    ensures RunAttempts(cfg, s, c.steps, 0).sends[0].at == s.clock
  {
    hide RunAttempts; hide Delay; hide PauseAfter;
    LoopFacts(cfg, s, c.steps, 0);
    var sends := RunAttempts(cfg, s, c.steps, 0).sends;
    forall k | 0 <= k < |sends| - 1 && k < |c.steps|
      ensures sends[k + 1].at == sends[k].at + c.steps[k].took + c.steps[k].lag +
        if s.failures + k + 1 >= cfg.threshold then 0.0 else PauseAfter(c.steps[k], k) + c.steps[k].overrun
    {
      RequestTimes(cfg, s, c.steps, 0, k);
      assert ValidStep(c.steps[k]);
      DelayIsPause(c.steps[k], k);
    }
  }

  /** A call that the breaker refuses: nothing changes but the clock. */
  ghost predicate RefusedAt(s: State, after: State, log: CallLog) {
    log.sends == [] && log.result.Refused? && after == s.(clock := log.checkedAt)
  }

  /** A call that is let through and ends with attempt n. */
  ghost predicate PassedAt(cfg: Config, s: State, c: Call, after: State, log: CallLog, n: nat)
    requires n < |c.steps|
  {
    && AnsweredBy(log.sends, log.result, c.steps[n].reply, n + 1)
    && log.sends[0].at == log.checkedAt
    && SentInTurn(cfg, s.failures, log.sends, c.steps)
    && Remembers(cfg, s.(openedAt := None), after, c.steps[n].reply, n + 1)
    && after.lastRequestAt == LastAnswered(log.sends, c.steps, 0, s.lastRequestAt, n + 1)
    && after.clock == DoneAt(log.sends[n], c.steps[n])
  }

  /**
   One call in full. It is refused exactly while the opening time is less than the cooldown ago; otherwise it sends
   one request more than the index of the first reply that ends a call, at most retries + 1, and its result, the
   failures, the reason, the opening time and the last answered moment are those of these replies.
   */
  lemma CallInFigures(cfg: Config, s: State, c: Call, n: nat)
    requires ValidCall(cfg, c) && LastAttempt(cfg, c.steps, n)
    ensures var (after, log) := AfterCall(cfg, s, c);
      && ChecksAt(cfg, s, c, log.checkedAt)
      && if s.openedAt.Some? && log.checkedAt - s.openedAt.value < cfg.cooldown then RefusedAt(s, after, log)
         else PassedAt(cfg, s, c, after, log, n)
  {
    var ready := Ready(cfg, s, c);
    var open := ready.(openedAt := None);
    LoopEndsWith(cfg, open, c.steps, 0, n);
    LoopRemembers(cfg, open, c.steps, 0, n);
    LoopAnswered(cfg, open, c.steps, 0, n);
    LoopSentInTurn(cfg, open, c);
    hide RunAttempts; hide LastAnswered; hide SentInTurn; hide EndsCall; hide ValidSteps;
  }
}
