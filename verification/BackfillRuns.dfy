/**
 What the backfill guarantees over every sequence of calls on one run id, with failures and crashes
 anywhere: resuming is confluent, the counters are true, and exactly when the rows stay unique.
 */
module BackfillRuns {
  import opened Common
  import opened NavTable
  import opened Backfill

  // ----- the invariant of a run

  /** The rows a fund owes to this run, computed from the table the run started with. */
  ghost function Share(db0: Db, job: Job, f: Fund): seq<NavRow> {
    NewRows(OwnerOf(f), job.history(f.externalId), db0.nav, job.fromDate, None, job.autoflush)
  }

  /** How many of the first n funds are done, and how many rows they brought. */
  ghost function DoneCount(db: Db, job: Job, n: nat): nat
    requires n <= |job.funds|
  {
    if n == 0 then 0 else DoneCount(db, job, n - 1) + if IsDone(db, job, job.funds[n - 1]) then 1 else 0
  }

  /** What is true of one fund: done with exactly its share, or untouched and without a last date. */
  ghost predicate FundState(db0: Db, db: Db, job: Job, f: Fund) {
    var cp := CheckpointOf(db, job, f);
    if IsDone(db, job, f) then
      && RowsOf(db.nav, f.id) == RowsOf(db0.nav, f.id) + Share(db0, job, f)
      && cp.lastDate == LastDate(job.history(f.externalId), job.fromDate, None, None)
    else
      && RowsOf(db.nav, f.id) == RowsOf(db0.nav, f.id)
      && cp.lastDate.None?
  }

  /** Nothing outside the run changes: other runs, their checkpoints, and the rows of other funds. */
  ghost predicate Frame(db0: Db, db: Db, job: Job) {
    && (forall r :: r in db0.runs && r != job.runId ==> r in db.runs && db.runs[r] == db0.runs[r])
    && (forall r :: r in db.runs && r != job.runId ==> r in db0.runs)
    && (forall k :: k in db0.checkpoints && k.0 != job.runId ==>
          k in db.checkpoints && db.checkpoints[k] == db0.checkpoints[k])
    && (forall k :: k in db.checkpoints && k.0 != job.runId ==> k in db0.checkpoints)
    && (forall id: nat :: (forall i :: 0 <= i < |job.funds| ==> job.funds[i].id != id) ==>
          RowsOf(db.nav, id) == RowsOf(db0.nav, id))
  }

  ghost predicate FundStates(db0: Db, db: Db, job: Job) {
    forall i :: 0 <= i < |job.funds| ==> FundState(db0, db, job, job.funds[i])
  }

  ghost predicate CountersTrue(db0: Db, db: Db, job: Job) {
    if job.runId in db.runs then
      && |db.nav| == |db0.nav| + db.runs[job.runId].rowsWritten
      && db.runs[job.runId].fundsCompleted == DoneCount(db, job, |job.funds|)
    else
      db.nav == db0.nav && DoneCount(db, job, |job.funds|) == 0
  }

  ghost predicate RunInvariant(db0: Db, db: Db, job: Job) {
    && Frame(db0, db, job)
    && FundStates(db0, db, job)
    && CountersTrue(db0, db, job)
    && db0.nav <= db.nav
  }

  /** A run id that has not been used: no run row and no checkpoints. */
  ghost predicate Fresh(db0: Db, job: Job) {
    job.runId !in db0.runs && forall k :: k in db0.checkpoints ==> k.0 != job.runId
  }

  lemma {:induction false} NothingDone(db: Db, job: Job, n: nat)
    requires n <= |job.funds| && Fresh(db, job)
    ensures DoneCount(db, job, n) == 0
  {
    if n > 0 { NothingDone(db, job, n - 1); }
  }

  lemma InvariantAtStart(db0: Db, job: Job)
    requires Fresh(db0, job)
    ensures RunInvariant(db0, db0, job)
  {
    NothingDone(db0, job, |job.funds|);
  }

  /** Checkpoints of other funds are not touched, so their being done does not change. */
  lemma {:induction false} DoneCountAfter(before: Db, after: Db, job: Job, k: nat, n: nat)
    requires ValidJob(job) && k < |job.funds| && n <= |job.funds|
    requires forall i :: 0 <= i < |job.funds| && i != k ==>
      IsDone(after, job, job.funds[i]) == IsDone(before, job, job.funds[i])
    requires !IsDone(before, job, job.funds[k])
    ensures DoneCount(after, job, n)
      == DoneCount(before, job, n) + if k < n && IsDone(after, job, job.funds[k]) then 1 else 0
  {
    if n > 0 {
      hide IsDone;
      DoneCountAfter(before, after, job, k, n - 1);
    }
  }

  /** Only the checkpoint of fund k changes. */
  ghost predicate OnlyCheckpoint(before: Db, after: Db, job: Job, k: nat, cp: Checkpoint)
    requires k < |job.funds|
  {
    after.checkpoints == before.checkpoints[(job.runId, job.funds[k].externalId) := cp]
  }

  lemma OtherFundsKeepCheckpoints(before: Db, after: Db, job: Job, k: nat, cp: Checkpoint)
    requires ValidJob(job) && k < |job.funds| && OnlyCheckpoint(before, after, job, k, cp)
    ensures CheckpointOf(after, job, job.funds[k]) == cp
    ensures IsDone(after, job, job.funds[k]) == (cp.status == Completed)
    ensures forall i :: 0 <= i < |job.funds| && i != k ==>
      && IsDone(after, job, job.funds[i]) == IsDone(before, job, job.funds[i])
      && CheckpointOf(after, job, job.funds[i]) == CheckpointOf(before, job, job.funds[i])
  {
    forall i | 0 <= i < |job.funds| && i != k
      ensures job.funds[i].externalId != job.funds[k].externalId
    {
      if i < k { assert job.funds[i].externalId != job.funds[k].externalId; }
    }
  }

  lemma SucceededRows(db0: Db, db: Db, job: Job, f: Fund)
    requires job.runId in db.runs && FundState(db0, db, job, f) && !IsDone(db, job, f)
    ensures Added(db, job, f) == Share(db0, job, f)
    ensures forall id: nat ::
      RowsOf(Succeeded(db, job, f).nav, id) == RowsOf(db.nav, id) + if id == f.id then Share(db0, job, f) else []
  {
    NewRowsOfOwnRows(OwnerOf(f), job.history(f.externalId), db.nav, db0.nav, job.fromDate, None, job.autoflush);
    var rows := Added(db, job, f);
    hide NewRows; hide LastDate; hide RowsOf;
    forall id: nat ensures RowsOf(db.nav + rows, id) == RowsOf(db.nav, id) + if id == f.id then rows else [] {
      RowsOfConcat(db.nav, rows, id);
      RowsOfOwn(rows, f.id, id);
    }
  }

  lemma SucceededKeeps(db0: Db, db: Db, job: Job, k: nat)
    requires ValidJob(job) && k < |job.funds| && job.runId in db.runs
    requires RunInvariant(db0, db, job) && !IsDone(db, job, job.funds[k])
    ensures RunInvariant(db0, Succeeded(db, job, job.funds[k]), job)
  {
    hide NewRows; hide LastDate; hide Share; hide RowsOf; hide DoneCount;
    var f := job.funds[k];
    var after := Succeeded(db, job, f);
    assert FundState(db0, db, job, f);
    SucceededRows(db0, db, job, f);
    OtherFundsKeepCheckpoints(db, after, job, k, after.checkpoints[(job.runId, f.externalId)]);
    DoneCountAfter(db, after, job, k, |job.funds|);
    hide IsDone; hide CheckpointOf;
    forall i | 0 <= i < |job.funds| ensures FundState(db0, after, job, job.funds[i]) {
      assert FundState(db0, db, job, job.funds[i]);
      assert i != k ==> job.funds[i].id != f.id;
    }
    assert Frame(db0, after, job);
    assert CountersTrue(db0, after, job);
  }

  lemma FailedKeeps(db0: Db, db: Db, job: Job, k: nat, error: string)
    requires ValidJob(job) && k < |job.funds| && job.runId in db.runs
    requires RunInvariant(db0, db, job) && !IsDone(db, job, job.funds[k])
    ensures RunInvariant(db0, Failed(db, job, job.funds[k], error), job)
  {
    var f := job.funds[k];
    var after := Failed(db, job, f, error);
    OtherFundsKeepCheckpoints(db, after, job, k, after.checkpoints[(job.runId, f.externalId)]);
    DoneCountAfter(db, after, job, k, |job.funds|);
    hide RowsOf; hide DoneCount; hide IsDone; hide NewRows; hide LastDate; hide Share;
    forall i | 0 <= i < |job.funds| ensures FundState(db0, after, job, job.funds[i]) {
      assert FundState(db0, db, job, job.funds[i]);
    }
  }

  lemma AfterFundKeeps(db0: Db, db: Db, job: Job, k: nat, outcome: Outcome)
    requires ValidJob(job) && k < |job.funds| && job.runId in db.runs && RunInvariant(db0, db, job)
    ensures RunInvariant(db0, AfterFund(db, job, job.funds[k], outcome), job)
  {
    hide RunInvariant; hide Succeeded; hide Failed;
    if !IsDone(db, job, job.funds[k]) {
      match outcome
      case Succeeds => SucceededKeeps(db0, db, job, k);
      case Raises(_, error) => FailedKeeps(db0, db, job, k, error);
      case Crashes(_) =>
    }
  }

  lemma {:induction false} AfterFundsKeeps(db0: Db, db: Db, job: Job, outcomes: seq<Outcome>, n: nat)
    requires ValidJob(job) && n <= |job.funds| && n <= |outcomes| && job.runId in db.runs
    requires RunInvariant(db0, db, job)
    ensures RunInvariant(db0, AfterFunds(db, job, outcomes, n), job)
  {
    hide RunInvariant; hide AfterFund; hide ValidJob;
    if n > 0 {
      var before := AfterFunds(db, job, outcomes, n - 1);
      AfterFundsKeeps(db0, db, job, outcomes, n - 1);
      AfterFundKeeps(db0, before, job, n - 1, outcomes[n - 1]);
    }
  }

  /** Rewriting the run row without its counters keeps the invariant. */
  lemma RunRowKeeps(db0: Db, db: Db, job: Job, run: Run)
    requires RunInvariant(db0, db, job)
    requires job.runId in db.runs ==>
      && run.rowsWritten == db.runs[job.runId].rowsWritten
      && run.fundsCompleted == db.runs[job.runId].fundsCompleted
    requires job.runId !in db.runs ==> run.rowsWritten == 0 && run.fundsCompleted == 0
    ensures RunInvariant(db0, db.(runs := db.runs[job.runId := run]), job)
  {
    var after := db.(runs := db.runs[job.runId := run]);
    SameCheckpointsSameCount(db, after, job, |job.funds|);
    hide RowsOf; hide DoneCount; hide IsDone; hide NewRows; hide LastDate; hide Share;
    forall i | 0 <= i < |job.funds| ensures FundState(db0, after, job, job.funds[i]) {
      assert FundState(db0, db, job, job.funds[i]);
      assert IsDone(after, job, job.funds[i]) == IsDone(db, job, job.funds[i]) by {
        SameCheckpointsSameDone(db, after, job, job.funds[i]);
      }
    }
  }

  lemma SameCheckpointsSameDone(a: Db, b: Db, job: Job, f: Fund)
    requires a.checkpoints == b.checkpoints
    ensures IsDone(a, job, f) == IsDone(b, job, f)
  {}

  lemma {:induction false} SameCheckpointsSameCount(a: Db, b: Db, job: Job, n: nat)
    requires a.checkpoints == b.checkpoints && n <= |job.funds|
    ensures DoneCount(a, job, n) == DoneCount(b, job, n)
  {
    if n > 0 { SameCheckpointsSameCount(a, b, job, n - 1); }
  }

  /** Every call keeps the invariant, wherever it fails or dies. */
  lemma CallKeepsInvariant(db0: Db, db: Db, job: Job, call: Call)
    requires ValidJob(job) && |call.outcomes| == |job.funds| && RunInvariant(db0, db, job)
    ensures RunInvariant(db0, AfterCall(db, job, call), job)
  {
    if call.starts {
      hide RunInvariant; hide AfterFunds; hide Reached;
      if job.runId !in db.runs { RunRowKeeps(db0, db, job, Run(job.provider, Running, 0, 0, [])); }
      var started := Started(db, job);
      var n := Reached(started, job, call.outcomes, |job.funds|);
      AfterFundsKeeps(db0, started, job, call.outcomes, n);
      var worked := AfterFunds(started, job, call.outcomes, n);
      if n == |job.funds| && call.finishes {
        RunRowKeeps(db0, worked, job, Finished(worked, job).runs[job.runId]);
      }
    }
  }

  // ----- any sequence of calls

  function AfterCalls(db: Db, job: Job, calls: seq<Call>): Db
    requires forall i :: 0 <= i < |calls| ==> |calls[i].outcomes| == |job.funds|
  {
    if calls == [] then db
    else AfterCall(AfterCalls(db, job, calls[..|calls| - 1]), job, calls[|calls| - 1])
  }

  /** At every point of every sequence of calls, the counters and the per-fund states are true. */
  lemma {:induction false} CallsKeepInvariant(db0: Db, job: Job, calls: seq<Call>)
    requires ValidJob(job) && Fresh(db0, job)
    requires forall i :: 0 <= i < |calls| ==> |calls[i].outcomes| == |job.funds|
    ensures RunInvariant(db0, AfterCalls(db0, job, calls), job)
  {
    if calls == [] {
      InvariantAtStart(db0, job);
    } else {
      hide RunInvariant; hide AfterCall;
      var rest := calls[..|calls| - 1];
      CallsKeepInvariant(db0, job, rest);
      CallKeepsInvariant(db0, AfterCalls(db0, job, rest), job, calls[|calls| - 1]);
    }
  }

  ghost predicate AllDone(db: Db, job: Job) {
    forall i :: 0 <= i < |job.funds| ==> IsDone(db, job, job.funds[i])
  }

  /** A call in which nothing goes wrong. */
  function CleanCall(job: Job): Call { Call(true, seq(|job.funds|, i => Succeeds), true) }

  lemma {:induction false} CleanFundsComplete(db: Db, job: Job, outcomes: seq<Outcome>, n: nat)
    requires ValidJob(job) && job.runId in db.runs && n <= |job.funds| <= |outcomes|
    requires forall i :: 0 <= i < |outcomes| ==> outcomes[i].Succeeds?
    ensures Reached(db, job, outcomes, n) == n
    ensures forall i :: 0 <= i < n ==> IsDone(AfterFunds(db, job, outcomes, n), job, job.funds[i])
  {
    if n > 0 {
      CleanFundsComplete(db, job, outcomes, n - 1);
      var before, f := AfterFunds(db, job, outcomes, n - 1), job.funds[n - 1];
      var after := AfterFunds(db, job, outcomes, n);
      if !IsDone(before, job, f) {
        OtherFundsKeepCheckpoints(before, after, job, n - 1, after.checkpoints[(job.runId, f.externalId)]);
      }
    }
  }

  /** From every state, one clean call completes every fund. */
  lemma CleanCallCompletes(db: Db, job: Job)
    requires ValidJob(job)
    ensures AllDone(AfterCall(db, job, CleanCall(job)), job)
    ensures job.runId in AfterCall(db, job, CleanCall(job)).runs
  {
    var outcomes := CleanCall(job).outcomes;
    CleanFundsComplete(Started(db, job), job, outcomes, |job.funds|);
    hide AfterFunds; hide Reached;
    var worked := AfterFunds(Started(db, job), job, outcomes, |job.funds|);
    forall i | 0 <= i < |job.funds| ensures IsDone(Finished(worked, job), job, job.funds[i]) {
      SameCheckpointsSameDone(worked, Finished(worked, job), job, job.funds[i]);
    }
  }

  lemma {:induction false} AllDoneCount(db: Db, job: Job, n: nat)
    requires n <= |job.funds| && AllDone(db, job)
    ensures DoneCount(db, job, n) == n
  {
    if n > 0 { AllDoneCount(db, job, n - 1); }
  }

  lemma {:induction false} MultiplicityInOwnRows(nav: seq<NavRow>, row: NavRow)
    ensures multiset(nav)[row] == multiset(RowsOf(nav, row.fundId))[row]
  {
    if nav != [] {
      var rest, last := nav[..|nav| - 1], nav[|nav| - 1];
      MultiplicityInOwnRows(rest, row);
      assert nav == rest + [last];
    }
  }

  lemma SameRowsSameTable(a: seq<NavRow>, b: seq<NavRow>)
    requires forall id: nat :: RowsOf(a, id) == RowsOf(b, id)
    ensures multiset(a) == multiset(b) && |a| == |b|
  {
    forall row ensures multiset(a)[row] == multiset(b)[row] {
      MultiplicityInOwnRows(a, row);
      MultiplicityInOwnRows(b, row);
      assert RowsOf(a, row.fundId) == RowsOf(b, row.fundId);
    }
    assert |multiset(a)| == |a| && |multiset(b)| == |b|;
  }

  /** A checkpoint without its error text, which a fund that failed once keeps when it succeeds. */
  function Settled(cp: Checkpoint): Checkpoint { cp.(error := None) }

  lemma DoneIsCompleted(db: Db, job: Job, f: Fund)
    requires IsDone(db, job, f)
    ensures CheckpointOf(db, job, f).status == Completed
  {}

  /** Two completed states of the same run hold the same rows and the same checkpoints, error texts aside. */
  lemma CompletedStatesAgree(db0: Db, a: Db, b: Db, job: Job)
    requires RunInvariant(db0, a, job) && RunInvariant(db0, b, job) && AllDone(a, job) && AllDone(b, job)
    ensures forall id: nat :: RowsOf(a.nav, id) == RowsOf(b.nav, id)
    ensures forall i :: 0 <= i < |job.funds| ==>
      Settled(CheckpointOf(a, job, job.funds[i])) == Settled(CheckpointOf(b, job, job.funds[i]))
  {
    hide RowsOf; hide IsDone; hide CheckpointOf; hide NewRows; hide LastDate; hide Share;
    forall i | 0 <= i < |job.funds|
      ensures RowsOf(a.nav, job.funds[i].id) == RowsOf(b.nav, job.funds[i].id)
      ensures Settled(CheckpointOf(a, job, job.funds[i])) == Settled(CheckpointOf(b, job, job.funds[i]))
    {
      DoneIsCompleted(a, job, job.funds[i]);
      DoneIsCompleted(b, job, job.funds[i]);
      assert FundState(db0, a, job, job.funds[i]) && FundState(db0, b, job, job.funds[i]);
    }
    forall id: nat ensures RowsOf(a.nav, id) == RowsOf(b.nav, id) {
      if forall i :: 0 <= i < |job.funds| ==> job.funds[i].id != id {
        assert RowsOf(a.nav, id) == RowsOf(db0.nav, id) == RowsOf(b.nav, id);
      }
    }
  }

  /**
   Resume confluence: whatever calls, failures and crashes lead to every fund being completed, the table
   holds exactly the rows of one undisturbed call, fund by fund in the same order, the checkpoints agree up to
   the text of an earlier error, and so do the counters.
   */
  lemma ResumeConfluence(db0: Db, job: Job, calls: seq<Call>)
    requires ValidJob(job) && Fresh(db0, job)
    requires forall i :: 0 <= i < |calls| ==> |calls[i].outcomes| == |job.funds|
    requires AllDone(AfterCalls(db0, job, calls), job)
    ensures var db, once := AfterCalls(db0, job, calls), AfterCall(db0, job, CleanCall(job));
      && (forall id: nat :: RowsOf(db.nav, id) == RowsOf(once.nav, id))
      && multiset(db.nav) == multiset(once.nav)
      && (forall i :: 0 <= i < |job.funds| ==>
            Settled(CheckpointOf(db, job, job.funds[i])) == Settled(CheckpointOf(once, job, job.funds[i])))
      && job.runId in once.runs
      && (job.runId in db.runs ==>
            && db.runs[job.runId].rowsWritten == once.runs[job.runId].rowsWritten == |once.nav| - |db0.nav|
            && db.runs[job.runId].fundsCompleted == once.runs[job.runId].fundsCompleted == |job.funds|)
  {
    var db, once := AfterCalls(db0, job, calls), AfterCall(db0, job, CleanCall(job));
    CallsKeepInvariant(db0, job, calls);
    InvariantAtStart(db0, job);
    CallKeepsInvariant(db0, db0, job, CleanCall(job));
    CleanCallCompletes(db0, job);
    hide AfterCall; hide AfterCalls;
    AllDoneCount(db, job, |job.funds|);
    AllDoneCount(once, job, |job.funds|);
    hide AllDone; hide FundStates; hide Frame; hide DoneCount;
    CompletedStatesAgree(db0, db, once, job);
    SameRowsSameTable(db.nav, once.nav);
  }

  /** Interrupted work is never lost work: after any calls, one clean call reaches the undisturbed result. */
  lemma CleanResumeFinishesTheJob(db0: Db, job: Job, calls: seq<Call>)
    requires ValidJob(job) && Fresh(db0, job)
    requires forall i :: 0 <= i < |calls| ==> |calls[i].outcomes| == |job.funds|
    ensures multiset(AfterCall(AfterCalls(db0, job, calls), job, CleanCall(job)).nav)
         == multiset(AfterCall(db0, job, CleanCall(job)).nav)
  {
    var all := calls + [CleanCall(job)];
    assert all[..|calls|] == calls;
    assert AfterCalls(db0, job, all) == AfterCall(AfterCalls(db0, job, calls), job, CleanCall(job));
    CleanCallCompletes(AfterCalls(db0, job, calls), job);
    hide AfterCall; hide AfterCalls;
    ResumeConfluence(db0, job, all);
  }

  // ----- errors stay on record

  ghost predicate HasErrors(db: Db, job: Job) { job.runId in db.runs && db.runs[job.runId].errors != [] }

  lemma {:induction false} ErrorsSurviveFunds(db: Db, job: Job, outcomes: seq<Outcome>, n: nat)
    requires job.runId in db.runs && n <= |job.funds| && n <= |outcomes|
    ensures db.runs[job.runId].errors <= AfterFunds(db, job, outcomes, n).runs[job.runId].errors
  {
    if n > 0 { ErrorsSurviveFunds(db, job, outcomes, n - 1); }
  }

  /** A run that has recorded an error never reports a plain completion again, however well it resumes. */
  lemma ErrorsAreNeverForgotten(db: Db, job: Job, call: Call)
    requires |call.outcomes| == |job.funds| && HasErrors(db, job)
    ensures HasErrors(AfterCall(db, job, call), job)
    ensures call.starts && call.finishes && Reached(db, job, call.outcomes, |job.funds|) == |job.funds| ==>
      AfterCall(db, job, call).runs[job.runId].status == CompletedWithErrors
  {
    if call.starts {
      ErrorsSurviveFunds(db, job, call.outcomes, Reached(db, job, call.outcomes, |job.funds|));
      hide AfterFunds; hide Reached;
    }
  }

  // ----- uniqueness of rows

  /** The rows of a completed fund are unique exactly when they were before and its new days do not repeat. */
  lemma DoneFundUniqueIff(db0: Db, db: Db, job: Job, f: Fund)
    requires FundState(db0, db, job, f) && IsDone(db, job, f)
    ensures UniqueRows(RowsOf(db.nav, f.id)) <==>
      && UniqueRows(RowsOf(db0.nav, f.id))
      && (job.autoflush || DistinctNewDays(OwnerOf(f), job.history(f.externalId), db0.nav, job.fromDate))
  {
    var own, share := RowsOf(db0.nav, f.id), Share(db0, job, f);
    forall i | 0 <= i < |share| ensures !HasDay(own, f.id, share[i].day) {
      assert HasDay(share, f.id, share[i].day);
      DaysOfNewRows(OwnerOf(f), job.history(f.externalId), db0.nav, job.fromDate, job.autoflush, share[i].day);
      HasDayOfOwnRows(db0.nav, f.id, share[i].day);
    }
    UniqueConcat(own, share);
    NewRowsUniqueIff(OwnerOf(f), job.history(f.externalId), db0.nav, job.fromDate, job.autoflush);
  }

  /** The histories that have been committed never put two new observations on one day. */
  ghost predicate CommittedDaysDistinct(db0: Db, db: Db, job: Job) {
    forall i :: 0 <= i < |job.funds| && IsDone(db, job, job.funds[i]) ==>
      DistinctNewDays(OwnerOf(job.funds[i]), job.history(job.funds[i].externalId), db0.nav, job.fromDate)
  }

  /**
   Row uniqueness over any sequence of calls, exactly: it is kept when the session flushes before queries,
   and otherwise precisely when no committed history repeats a day that was not stored before.
   */
  lemma RowsStayUniqueIff(db0: Db, job: Job, calls: seq<Call>)
    requires ValidJob(job) && Fresh(db0, job)
    requires forall i :: 0 <= i < |calls| ==> |calls[i].outcomes| == |job.funds|
    ensures var db := AfterCalls(db0, job, calls);
      UniqueRows(db.nav) <==> UniqueRows(db0.nav) && (job.autoflush || CommittedDaysDistinct(db0, db, job))
  {
    var db := AfterCalls(db0, job, calls);
    CallsKeepInvariant(db0, job, calls);
    UniqueByFund(db0.nav);
    UniqueByFund(db.nav);
    hide AfterCalls; hide RowsOf; hide UniqueRows; hide NewRows; hide LastDate; hide DoneCount; hide DistinctNewDays;
    forall i | 0 <= i < |job.funds|
      ensures var f := job.funds[i];
        UniqueRows(RowsOf(db.nav, f.id)) <==>
          && UniqueRows(RowsOf(db0.nav, f.id))
          && (IsDone(db, job, f) && !job.autoflush ==>
                DistinctNewDays(OwnerOf(f), job.history(f.externalId), db0.nav, job.fromDate))
    {
      assert FundState(db0, db, job, job.funds[i]);
      if IsDone(db, job, job.funds[i]) { DoneFundUniqueIff(db0, db, job, job.funds[i]); }
    }
    hide IsDone; hide FundState;
    assert forall id: nat :: (forall i :: 0 <= i < |job.funds| ==> job.funds[i].id != id) ==>
      RowsOf(db.nav, id) == RowsOf(db0.nav, id);
    if UniqueRows(db.nav) {
      forall id: nat ensures UniqueRows(RowsOf(db0.nav, id)) {
        assert UniqueRows(RowsOf(db.nav, id));
      }
      if !job.autoflush {
        forall i | 0 <= i < |job.funds| && IsDone(db, job, job.funds[i])
          ensures DistinctNewDays(OwnerOf(job.funds[i]), job.history(job.funds[i].externalId), db0.nav, job.fromDate)
        {
          assert UniqueRows(RowsOf(db.nav, job.funds[i].id));
        }
      }
    }
    if UniqueRows(db0.nav) && (job.autoflush || CommittedDaysDistinct(db0, db, job)) {
      forall id: nat ensures UniqueRows(RowsOf(db.nav, id)) {
        assert UniqueRows(RowsOf(db0.nav, id));
      }
    }
  }

  function HourLater(r: Observation): Observation {
    r.(observedAt := r.observedAt.(at := r.observedAt.at + 3600))
  }

  /** Two observations on one day, one at noon and one an hour later: without autoflush both are stored. */
  lemma RepeatedDayExample(job: Job, r: Observation)
    requires job.funds == [Fund(1, "F", None)] && job.history("F") == [r, HourLater(r)]
    requires (r.observedAt.at + r.observedAt.offset) % SECONDS_PER_DAY == 43200
    requires job.fromDate.None? && !job.autoflush
    ensures !UniqueRows(AfterCall(Db([], map[], map[]), job, CleanCall(job)).nav)
  {
    var db0 := Db([], map[], map[]);
    assert Day(HourLater(r)) == Day(r);
    assert AfterCalls(db0, job, [CleanCall(job)]) == AfterCall(db0, job, CleanCall(job)) by {
      assert [CleanCall(job)][..0] == [];
    }
    CleanCallCompletes(db0, job);
    var db := AfterCalls(db0, job, [CleanCall(job)]);
    hide AfterCall; hide AfterCalls;
    RowsStayUniqueIff(db0, job, [CleanCall(job)]);
    var f, history := job.funds[0], job.history("F");
    assert IsDone(db, job, f);
    assert !DistinctNewDays(OwnerOf(f), history, db0.nav, job.fromDate) by {
      assert Day(history[0]) == Day(history[1]) && Eligible(history[0], None, None) && !HasDay(db0.nav, 1, Day(r));
    }
  }
}
