/**
 How far apart the requests of one call are: the backoff of a closed breaker, and its absence once the
 breaker has opened inside the call.
 */
module CircuitPauses {
  import opened Common
  import opened Circuit
  import opened CircuitRuns

  /** The time from a request to the next one of the same call, when failures have been counted by then. */
  function Gap(cfg: Config, failures: nat, x: Step, attempt: nat): real {
    x.took + x.lag + if failures >= OpenLimit(cfg) then 0.0 else Delay(x, attempt) + x.overrun
  }

  /** The breaker is only open for as many failures as open it. */
  ghost predicate OpenNeedsFailures(cfg: Config, s: State) { s.openedAt.Some? ==> s.failures >= OpenLimit(cfg) }

  lemma NextRequest(cfg: Config, s: State, x: Step, attempt: nat)
    requires OpenNeedsFailures(cfg, s)
    ensures var paused := Paused(FailedAttempt(cfg, s, x), x, attempt);
      && OpenNeedsFailures(cfg, paused) && paused.failures == s.failures + 1
      && paused.clock == s.clock + Gap(cfg, s.failures + 1, x, attempt)
  {
    hide Delay;
  }

  /** Request k + 1 of a call follows request k after exactly the gap for the failures counted until then. */
  lemma {:induction false} RequestTimes(cfg: Config, s: State, steps: seq<Step>, attempt: nat, k: nat)
    requires ValidSteps(cfg, steps) && attempt <= cfg.retries && OpenNeedsFailures(cfg, s)
    requires k + 1 < |RunAttempts(cfg, s, steps, attempt).sends|
    ensures attempt + k < |steps|
    ensures var sends := RunAttempts(cfg, s, steps, attempt).sends;
      sends[k + 1].at == sends[k].at + Gap(cfg, s.failures + k + 1, steps[attempt + k], attempt + k)
    decreases k
  {
    var x := steps[attempt];
    var paused := Paused(FailedAttempt(cfg, s, x), x, attempt);
    hide RunAttempts; hide Permanent;
    RunAttemptsStep(cfg, s, steps, attempt);
    NextRequest(cfg, s, x, attempt);
    hide Gap; hide Paused; hide FailedAttempt; hide OpenLimit;
    if k > 0 {
      RequestTimes(cfg, paused, steps, attempt + 1, k - 1);
    } else {
      LoopFacts(cfg, paused, steps, attempt + 1);
    }
  }

  /** While the breaker stays closed, retries back off exponentially, up to 30 seconds. */
  lemma ClosedCallsBackOff(cfg: Config, s: State, c: Call, k: nat)
    requires Coherent(cfg, s) && ValidCall(cfg, c)
    requires k + 1 < |AfterCall(cfg, s, c).1.sends| && s.failures + k + 1 < OpenLimit(cfg)
    ensures var sends := AfterCall(cfg, s, c).1.sends;
      && k < |c.steps|
      && sends[k + 1].at >= sends[k].at + MinReal(
           (if c.steps[k].reply.Status? && c.steps[k].reply.retryAfter.Some? then c.steps[k].reply.retryAfter.value
            else TwoToThe(k)) as real, 30.0)
  {
    RequestTimes(cfg, Ready(cfg, s, c).(openedAt := None), c.steps, 0, k);
    assert ValidStep(c.steps[k]);
  }

  /** Retries of a trial call are not held back at all: the breaker is open again after its first failure. */
  lemma TrialRetriesAtOnce(cfg: Config, s: State, c: Call, k: nat)
    requires Coherent(cfg, s) && ValidCall(cfg, c) && s.openedAt.Some?
    requires k + 1 < |AfterCall(cfg, s, c).1.sends|
    ensures k < |c.steps|
    ensures var sends := AfterCall(cfg, s, c).1.sends;
      sends[k + 1].at == sends[k].at + c.steps[k].took + c.steps[k].lag
  {
    hide RunAttempts;
    RequestTimes(cfg, Ready(cfg, s, c).(openedAt := None), c.steps, 0, k);
  }
}
