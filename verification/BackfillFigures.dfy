/**
 What a backfill leaves in the database, in the figures of its upstream histories: the rows and last dates of
 every fund after any calls, and what one call writes into the run row and the checkpoints.
 */
module BackfillFigures {
  import opened Common
  import opened NavTable
  import opened NavContents
  import opened Backfill
  import opened BackfillRuns

  ghost predicate CompletedIn(db: Db, job: Job, f: Fund) {
    var key := (job.runId, f.externalId);
    key in db.checkpoints && db.checkpoints[key].status == Completed
  }

  /** The rows of a fund written by the run: those behind the rows it started with. */
  ghost predicate FundRows(db0: Db, db: Db, job: Job, f: Fund) {
    var own0, own, history := RowsOf(db0.nav, f.id), RowsOf(db.nav, f.id), job.history(f.externalId);
    && own0 <= own
    && if CompletedIn(db, job, f) then
         && StoresHistory(own[|own0|..], Owner(f.id, f.source, false), history, db0.nav, job.fromDate, None,
                          job.autoflush)
         && IsLatestDate(db.checkpoints[(job.runId, f.externalId)].lastDate, history, job.fromDate, None)
       else own == own0
  }

  lemma FundStateInFigures(db0: Db, db: Db, job: Job, f: Fund)
    requires FundState(db0, db, job, f)
    ensures FundRows(db0, db, job, f)
  {
    hide StoresHistory; hide IsLatestDate; hide NewRows; hide LastDate; hide RowsOf;
    if IsDone(db, job, f) {
      var own0, history := RowsOf(db0.nav, f.id), job.history(f.externalId);
      RowsHoldRecords(OwnerOf(f), history, db0.nav, job.fromDate, None, job.autoflush);
      LastDateIsLatest(history, job.fromDate, None);
      assert (own0 + Share(db0, job, f))[|own0|..] == Share(db0, job, f);
    }
  }

  /**
   The committed table after any calls, failures and crashes: behind its earlier rows, a completed fund has
   exactly the rows of its history's records, with the latest of their dates in its checkpoint; any other fund
   has nothing new.
   */
  lemma CommittedRows(db0: Db, job: Job, calls: seq<Call>)
    requires ValidJob(job) && Fresh(db0, job)
    requires forall i :: 0 <= i < |calls| ==> |calls[i].outcomes| == |job.funds|
    ensures forall i :: 0 <= i < |job.funds| ==> FundRows(db0, AfterCalls(db0, job, calls), job, job.funds[i])
  {
    CallsKeepInvariant(db0, job, calls);
    hide AfterCalls; hide FundState; hide FundRows; hide Fresh; hide Frame; hide CountersTrue;
    var db := AfterCalls(db0, job, calls);
    forall i | 0 <= i < |job.funds| ensures FundRows(db0, db, job, job.funds[i]) {
      FundStateInFigures(db0, db, job, job.funds[i]);
    }
  }

  /** One undisturbed call stores every history. */
  lemma CleanCallStoresEverything(db0: Db, job: Job)
    requires ValidJob(job) && Fresh(db0, job)
    ensures forall i :: 0 <= i < |job.funds| ==>
      && CompletedIn(AfterCall(db0, job, CleanCall(job)), job, job.funds[i])
      && FundRows(db0, AfterCall(db0, job, CleanCall(job)), job, job.funds[i])
  {
    CleanCallCompletes(db0, job);
    CommittedRows(db0, job, [CleanCall(job)]);
    hide FundRows; hide AfterCall; hide Fresh; hide ValidJob;
    assert [CleanCall(job)][..0] == [];
    assert AfterCalls(db0, job, [CleanCall(job)]) == AfterCall(db0, job, CleanCall(job));
  }

  // ----- what one call writes besides rows

  /** One line for each of the first n funds that had work and raised. */
  ghost function ErrorLines(db: Db, job: Job, outcomes: seq<Outcome>, n: nat): seq<string>
    requires n <= |job.funds| && n <= |outcomes|
  {
    if n == 0 then []
    else
      var earlier, f := ErrorLines(db, job, outcomes, n - 1), job.funds[n - 1];
      if outcomes[n - 1].Raises? && !CompletedIn(db, job, f)
      then earlier + [f.externalId + ": " + outcomes[n - 1].error] else earlier
  }

  /** Exactly the first k funds have their turn: the process dies on fund k, if there is one. */
  ghost predicate DiesAt(db: Db, job: Job, outcomes: seq<Outcome>, k: nat)
    requires |outcomes| == |job.funds|
  {
    && k <= |job.funds|
    && (forall i :: 0 <= i < k ==> !outcomes[i].Crashes? || CompletedIn(db, job, job.funds[i]))
    && (k < |job.funds| ==> outcomes[k].Crashes? && !CompletedIn(db, job, job.funds[k]))
  }

  /** What the turn of a fund leaves in its checkpoint. */
  ghost predicate TurnTold(db: Db, after: Db, job: Job, f: Fund, outcome: Outcome) {
    var key := (job.runId, f.externalId);
    if CompletedIn(db, job, f) then SameCheckpoint(db, after, key)
    else
      match outcome
      case Succeeds =>
        && key in after.checkpoints && after.checkpoints[key].status == Completed
        && after.checkpoints[key].error == (if key in db.checkpoints then db.checkpoints[key].error else None)
      case Raises(_, error) =>
        && key in after.checkpoints && after.checkpoints[key].status == Status.Error
        && after.checkpoints[key].error == Some(error)
        && after.checkpoints[key].lastDate == (if key in db.checkpoints then db.checkpoints[key].lastDate else None)
      case Crashes(_) => SameCheckpoint(db, after, key)
  }

  ghost predicate SameCheckpoint(a: Db, b: Db, key: (string, string)) {
    (key in a.checkpoints <==> key in b.checkpoints)
    && (key in a.checkpoints ==> a.checkpoints[key] == b.checkpoints[key])
  }

  ghost predicate TurnsTold(db: Db, after: Db, job: Job, outcomes: seq<Outcome>, n: nat)
    requires n <= |job.funds| && n <= |outcomes|
  {
    && (forall i :: 0 <= i < n ==> TurnTold(db, after, job, job.funds[i], outcomes[i]))
    && (forall i :: n <= i < |job.funds| ==> SameCheckpoint(db, after, (job.runId, job.funds[i].externalId)))
  }

  lemma TurnTells(db: Db, before: Db, job: Job, f: Fund, outcome: Outcome)
    requires job.runId in before.runs && SameCheckpoint(db, before, (job.runId, f.externalId))
    ensures var after := AfterFund(before, job, f, outcome);
      && TurnTold(db, after, job, f, outcome)
      && after.runs[job.runId].errors == before.runs[job.runId].errors
           + (if outcome.Raises? && !CompletedIn(db, job, f) then [f.externalId + ": " + outcome.error] else [])
      && after.runs[job.runId].status == before.runs[job.runId].status
      && after.runs[job.runId].provider == before.runs[job.runId].provider
      && forall key :: key != (job.runId, f.externalId) ==> SameCheckpoint(before, after, key)
  {
    hide NewRows; hide LastDate;
    assert before.runs[job.runId].errors + [] == before.runs[job.runId].errors;
  }

  lemma ToldUnchanged(db: Db, a: Db, b: Db, job: Job, f: Fund, outcome: Outcome)
    requires TurnTold(db, a, job, f, outcome) && SameCheckpoint(a, b, (job.runId, f.externalId))
    ensures TurnTold(db, b, job, f, outcome)
  {}

  lemma SameTransitive(a: Db, b: Db, c: Db, key: (string, string))
    requires SameCheckpoint(a, b, key) && SameCheckpoint(b, c, key)
    ensures SameCheckpoint(a, c, key)
  {}

  lemma DistinctIds(job: Job, i: nat, j: nat)
    requires ValidJob(job) && i < |job.funds| && j < |job.funds| && i != j
    ensures job.funds[i].externalId != job.funds[j].externalId
  {}

  lemma NextToldBy(db: Db, before: Db, after: Db, job: Job, outcomes: seq<Outcome>, n: nat)
    requires ValidJob(job) && n < |job.funds| && n < |outcomes| && TurnsTold(db, before, job, outcomes, n)
    requires TurnTold(db, after, job, job.funds[n], outcomes[n])
    requires forall key :: key != (job.runId, job.funds[n].externalId) ==> SameCheckpoint(before, after, key)
    ensures TurnsTold(db, after, job, outcomes, n + 1)
  {
    hide SameCheckpoint; hide TurnTold; hide ValidJob;
    forall i | 0 <= i < n ensures TurnTold(db, after, job, job.funds[i], outcomes[i]) {
      DistinctIds(job, i, n);
      ToldUnchanged(db, before, after, job, job.funds[i], outcomes[i]);
    }
    forall i | n < i < |job.funds| ensures SameCheckpoint(db, after, (job.runId, job.funds[i].externalId)) {
      DistinctIds(job, i, n);
      SameTransitive(db, before, after, (job.runId, job.funds[i].externalId));
    }
  }

  /** What is said of the run row after the turns of the first n funds. */
  ghost predicate RunTold(db: Db, after: Db, job: Job, outcomes: seq<Outcome>, n: nat)
    requires job.runId in db.runs && n <= |job.funds| && n <= |outcomes|
  {
    && job.runId in after.runs
    && after.runs[job.runId].errors == db.runs[job.runId].errors + ErrorLines(db, job, outcomes, n)
    && after.runs[job.runId].status == db.runs[job.runId].status
    && after.runs[job.runId].provider == db.runs[job.runId].provider
  }

  lemma NothingTold(db: Db, job: Job, outcomes: seq<Outcome>)
    requires job.runId in db.runs
    ensures TurnsTold(db, db, job, outcomes, 0) && RunTold(db, db, job, outcomes, 0)
  {}

  lemma NextRunTold(db: Db, before: Db, job: Job, outcomes: seq<Outcome>, n: nat)
    requires job.runId in db.runs && n < |job.funds| && n < |outcomes| && RunTold(db, before, job, outcomes, n)
    requires SameCheckpoint(db, before, (job.runId, job.funds[n].externalId))
    ensures RunTold(db, AfterFund(before, job, job.funds[n], outcomes[n]), job, outcomes, n + 1)
  {
    TurnTells(db, before, job, job.funds[n], outcomes[n]);
    hide AfterFund; hide CompletedIn; hide TurnTold; hide SameCheckpoint;
  }

  lemma {:induction false} FundsTell(db: Db, job: Job, outcomes: seq<Outcome>, n: nat)
    requires ValidJob(job) && job.runId in db.runs && n <= |job.funds| && n <= |outcomes|
    ensures TurnsTold(db, AfterFunds(db, job, outcomes, n), job, outcomes, n)
    ensures RunTold(db, AfterFunds(db, job, outcomes, n), job, outcomes, n)
  {
    if n == 0 {
      NothingTold(db, job, outcomes);
      return;
    }
    hide ValidJob; hide AfterFund; hide TurnTold; hide SameCheckpoint; hide RunTold;
    var before := AfterFunds(db, job, outcomes, n - 1);
    FundsTell(db, job, outcomes, n - 1);
    TurnTells(db, before, job, job.funds[n - 1], outcomes[n - 1]);
    NextToldBy(db, before, AfterFund(before, job, job.funds[n - 1], outcomes[n - 1]), job, outcomes, n - 1);
    NextRunTold(db, before, job, outcomes, n - 1);
  }

  lemma CompletedBefore(db: Db, job: Job, outcomes: seq<Outcome>, n: nat)
    requires ValidJob(job) && job.runId in db.runs && n < |job.funds| && n < |outcomes|
    ensures IsDone(AfterFunds(db, job, outcomes, n), job, job.funds[n]) == CompletedIn(db, job, job.funds[n])
  {
    FundsTell(db, job, outcomes, n);
    hide AfterFunds; hide TurnTold;
    assert SameCheckpoint(db, AfterFunds(db, job, outcomes, n), (job.runId, job.funds[n].externalId));
  }

  lemma {:induction false} ReachedIsDeath(db: Db, job: Job, outcomes: seq<Outcome>, k: nat, n: nat)
    requires ValidJob(job) && job.runId in db.runs && |outcomes| == |job.funds| && DiesAt(db, job, outcomes, k)
    requires n <= |job.funds|
    ensures Reached(db, job, outcomes, n) == if n <= k then n else k
  {
    if n == 0 { return; }
    ReachedIsDeath(db, job, outcomes, k, n - 1);
    CompletedBefore(db, job, outcomes, n - 1);
    hide ValidJob; hide AfterFunds; hide IsDone; hide CompletedIn;
  }

  /** The run row a call works on: the stored one, or a new one of the job's provider. */
  ghost function RunBefore(db: Db, job: Job): Run {
    if job.runId in db.runs then db.runs[job.runId] else Run(job.provider, Running, 0, 0, [])
  }

  /**
   One call in full: every fund up to the first crash on unfinished work has its turn told by its checkpoint,
   later funds keep theirs, the run collects one line per failure in order, keeps its provider, and changes its
   status only when the last commit is reached: to completed exactly when no failure is on record.
   */
  lemma CallTells(db: Db, job: Job, call: Call, k: nat)
    requires ValidJob(job) && |call.outcomes| == |job.funds| && call.starts && DiesAt(db, job, call.outcomes, k)
    ensures var after := AfterCall(db, job, call);
      && TurnsTold(db, after, job, call.outcomes, k)
      && job.runId in after.runs
      && after.runs[job.runId].errors == RunBefore(db, job).errors + ErrorLines(db, job, call.outcomes, k)
      && after.runs[job.runId].provider == RunBefore(db, job).provider
      && after.runs[job.runId].status ==
           if k < |job.funds| || !call.finishes then RunBefore(db, job).status
           else if after.runs[job.runId].errors == [] then RunCompleted else CompletedWithErrors
  {
    var started := Started(db, job);
    ErrorLinesReadCheckpoints(db, started, job, call.outcomes, k);
    FundsTell(started, job, call.outcomes, k);
    ReachedIsDeath(started, job, call.outcomes, k, |job.funds|);
    hide ValidJob; hide AfterFunds; hide Reached; hide ErrorLines;
    var worked := AfterFunds(started, job, call.outcomes, k);
    assert started.checkpoints == db.checkpoints;
    assert AfterCall(db, job, call).checkpoints == worked.checkpoints;
    TurnsReadCheckpoints(started, worked, db, AfterCall(db, job, call), job, call.outcomes, k);
    hide TurnsTold;
  }

  lemma TurnsReadCheckpoints(a: Db, b: Db, c: Db, d: Db, job: Job, outcomes: seq<Outcome>, n: nat)
    requires n <= |job.funds| && n <= |outcomes| && TurnsTold(a, b, job, outcomes, n)
    requires a.checkpoints == c.checkpoints && b.checkpoints == d.checkpoints
    ensures TurnsTold(c, d, job, outcomes, n)
  {
    forall i | 0 <= i < n ensures TurnTold(c, d, job, job.funds[i], outcomes[i]) {
      assert TurnTold(a, b, job, job.funds[i], outcomes[i]);
    }
    forall i | n <= i < |job.funds| ensures SameCheckpoint(c, d, (job.runId, job.funds[i].externalId)) {
      assert SameCheckpoint(a, b, (job.runId, job.funds[i].externalId));
    }
  }

  lemma {:induction false} ErrorLinesReadCheckpoints(a: Db, b: Db, job: Job, outcomes: seq<Outcome>, n: nat)
    requires n <= |job.funds| && n <= |outcomes| && a.checkpoints == b.checkpoints
    ensures ErrorLines(a, job, outcomes, n) == ErrorLines(b, job, outcomes, n)
  {
    if n > 0 { ErrorLinesReadCheckpoints(a, b, job, outcomes, n - 1); }
  }
}
