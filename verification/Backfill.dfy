/**
 The resumable NAV backfill: a database with a committed and a working state, one commit per fund,
 and failures or crashes at any point.
 */
module Backfill {
  import opened Common
  import opened NavTable
  import opened NavContents

  datatype Fund = Fund(id: nat, externalId: string, source: Option<string>)

  datatype Status = Pending | Completed | Error

  datatype Checkpoint = Checkpoint(lastDate: Option<int>, status: Status, error: Option<string>)

  datatype RunStatus = Running | RunCompleted | CompletedWithErrors

  datatype Run = Run(
    provider: string, status: RunStatus, fundsCompleted: nat, rowsWritten: nat, errors: seq<string>)

  datatype Db = Db(nav: seq<NavRow>, runs: map<string, Run>, checkpoints: map<(string, string), Checkpoint>)

  /** What a backfill is asked to do; the upstream answers are a function of the fund. */
  datatype Job = Job(
    runId: string, provider: string, funds: seq<Fund>, history: string -> seq<Observation>,
    fromDate: Option<int>, autoflush: bool)

  /** How the work on one fund ends: an exception or a crash comes after some of the records. */
  datatype Outcome = Succeeds | Raises(after: nat, error: string) | Crashes(after: nat)

  /** Fund ids and external ids are unique, as the fund table guarantees. */
  ghost predicate ValidJob(job: Job) {
    forall i, j :: 0 <= i < j < |job.funds| ==>
      job.funds[i].id != job.funds[j].id && job.funds[i].externalId != job.funds[j].externalId
  }

  // ----- what one fund commits

  /** The backfill never stores net assets. */
  function OwnerOf(f: Fund): Owner { Owner(f.id, f.source, false) }

  function CheckpointOf(db: Db, job: Job, f: Fund): Checkpoint {
    var key := (job.runId, f.externalId);
    if key in db.checkpoints then db.checkpoints[key] else Checkpoint(None, Pending, None)
  }

  predicate IsDone(db: Db, job: Job, f: Fund) {
    (job.runId, f.externalId) in db.checkpoints && db.checkpoints[(job.runId, f.externalId)].status == Completed
  }

  function Added(db: Db, job: Job, f: Fund): seq<NavRow> {
    NewRows(OwnerOf(f), job.history(f.externalId), db.nav, job.fromDate, CheckpointOf(db, job, f).lastDate,
            job.autoflush)
  }

  function Succeeded(db: Db, job: Job, f: Fund): Db
    requires job.runId in db.runs
  {
    var cp, run := CheckpointOf(db, job, f), db.runs[job.runId];
    var rows := Added(db, job, f);
    var last := LastDate(job.history(f.externalId), job.fromDate, cp.lastDate, cp.lastDate);
    Db(db.nav + rows,
       db.runs[job.runId := run.(fundsCompleted := run.fundsCompleted + 1, rowsWritten := run.rowsWritten + |rows|)],
       db.checkpoints[(job.runId, f.externalId) := cp.(lastDate := last, status := Completed)])
  }

  function Failed(db: Db, job: Job, f: Fund, error: string): Db
    requires job.runId in db.runs
  {
    var run := db.runs[job.runId];
    db.(runs := db.runs[job.runId := run.(errors := run.errors + [f.externalId + ": " + error])],
        checkpoints := db.checkpoints[(job.runId, f.externalId) :=
          CheckpointOf(db, job, f).(status := Error, error := Some(error))])
  }

  /** The committed state after the turn of one fund. */
  function AfterFund(db: Db, job: Job, f: Fund, outcome: Outcome): (r: Db)
    requires job.runId in db.runs
    ensures job.runId in r.runs
  {
    if IsDone(db, job, f) then db
    else
      match outcome
      case Succeeds => Succeeded(db, job, f)
      case Raises(_, error) => Failed(db, job, f, error)
      case Crashes(_) => db
  }

  // ----- a whole call

  /** A call: whether it reaches its first commit, how each fund ends, whether it reaches the last commit. */
  datatype Call = Call(starts: bool, outcomes: seq<Outcome>, finishes: bool)

  function Started(db: Db, job: Job): (r: Db)
    ensures job.runId in r.runs
  {
    if job.runId in db.runs then db
    else db.(runs := db.runs[job.runId := Run(job.provider, Running, 0, 0, [])])
  }

  /** The committed state after the first n funds. */
  function AfterFunds(db: Db, job: Job, outcomes: seq<Outcome>, n: nat): (r: Db)
    requires job.runId in db.runs && n <= |job.funds| && n <= |outcomes|
    ensures job.runId in r.runs
  {
    if n == 0 then db
    else AfterFund(AfterFunds(db, job, outcomes, n - 1), job, job.funds[n - 1], outcomes[n - 1])
  }

  function Finished(db: Db, job: Job): Db
    requires job.runId in db.runs
  {
    var run := db.runs[job.runId];
    db.(runs := db.runs[job.runId :=
          run.(status := if run.errors != [] then CompletedWithErrors else RunCompleted)])
  }

  /** The funds whose turn a call completes: up to the first crash on a fund that still has work. */
  function Reached(db: Db, job: Job, outcomes: seq<Outcome>, n: nat): (reached: nat)
    requires job.runId in db.runs && n <= |job.funds| && n <= |outcomes|
    ensures reached <= n
  {
    if n == 0 then 0
    else
      var before := Reached(db, job, outcomes, n - 1);
      if before < n - 1 then before
      else if outcomes[n - 1].Crashes? && !IsDone(AfterFunds(db, job, outcomes, n - 1), job, job.funds[n - 1])
      then n - 1
      else n
  }

  function AfterCall(db: Db, job: Job, call: Call): Db
    requires |call.outcomes| == |job.funds|
  {
    if !call.starts then db
    else
      var started := Started(db, job);
      var n := Reached(started, job, call.outcomes, |job.funds|);
      var worked := AfterFunds(started, job, call.outcomes, n);
      if n == |job.funds| && call.finishes then Finished(worked, job) else worked
  }

  // ----- where the rows of a call come from

  /** A row of the job: it holds a usable record of the history of one of its funds, for that fund. */
  ghost predicate HoldsHistory(row: NavRow, job: Job) {
    exists i: nat, k: nat :: HoldsFundRecord(row, job, i, k)
  }

  ghost predicate HoldsFundRecord(row: NavRow, job: Job, i: nat, k: nat) {
    && i < |job.funds| && k < |job.history(job.funds[i].externalId)|
    && HoldsRecord(row, Owner(job.funds[i].id, job.funds[i].source, false), job.history(job.funds[i].externalId)[k])
    && Usable(job.history(job.funds[i].externalId)[k], job.fromDate, None)
  }

  /** The table only grows, by rows that hold records of the job's histories. */
  ghost predicate GrowsByHistory(before: seq<NavRow>, after: seq<NavRow>, job: Job) {
    before <= after && forall k :: |before| <= k < |after| ==> HoldsHistory(after[k], job)
  }

  lemma AddedHold(rows: seq<NavRow>, job: Job, i: nat, stored: seq<NavRow>, latest: Option<int>, k: nat)
    requires i < |job.funds| && k < |rows|
    requires StoresHistory(rows, Owner(job.funds[i].id, job.funds[i].source, false),
                           job.history(job.funds[i].externalId), stored, job.fromDate, latest, job.autoflush)
    ensures HoldsHistory(rows[k], job)
  {
    var o, history := Owner(job.funds[i].id, job.funds[i].source, false), job.history(job.funds[i].externalId);
    hide HoldsRecord; hide DayTaken; hide LocalDay;
    var picks: seq<nat> :| HoldsExactly(rows, o, history, picks, stored, job.fromDate, latest, job.autoflush);
    assert picks[k] in picks;
    assert GetsRow(o, history, picks[k], stored, job.fromDate, latest, job.autoflush);
    assert HoldsFundRecord(rows[k], job, i, picks[k]);
  }

  lemma SucceededGrows(db: Db, job: Job, i: nat)
    requires i < |job.funds| && job.runId in db.runs
    ensures GrowsByHistory(db.nav, Succeeded(db, job, job.funds[i]).nav, job)
  {
    var f := job.funds[i];
    var rows, after := Added(db, job, f), Succeeded(db, job, f).nav;
    var latest := CheckpointOf(db, job, f).lastDate;
    assert after == db.nav + rows;
    hide Succeeded; hide HoldsHistory; hide StoresHistory; hide NewRows; hide CheckpointOf;
    RowsHoldRecords(OwnerOf(f), job.history(f.externalId), db.nav, job.fromDate, latest, job.autoflush);
    forall k | |db.nav| <= k < |after| ensures HoldsHistory(after[k], job) {
      AddedHold(rows, job, i, db.nav, latest, k - |db.nav|);
    }
  }

  lemma SameRows(nav: seq<NavRow>, job: Job)
    ensures GrowsByHistory(nav, nav, job)
  {}

  lemma GrowsOn(a: seq<NavRow>, b: seq<NavRow>, c: seq<NavRow>, job: Job)
    requires GrowsByHistory(a, b, job) && GrowsByHistory(b, c, job)
    ensures GrowsByHistory(a, c, job)
  {
    hide HoldsHistory;
    forall k | |a| <= k < |c| ensures HoldsHistory(c[k], job) {
      if k < |b| { assert c[k] == b[k]; }
    }
  }

  lemma FundGrows(db: Db, job: Job, i: nat, outcome: Outcome)
    requires i < |job.funds| && job.runId in db.runs
    ensures GrowsByHistory(db.nav, AfterFund(db, job, job.funds[i], outcome).nav, job)
  {
    SameRows(db.nav, job);
    SucceededGrows(db, job, i);
    hide Succeeded; hide GrowsByHistory;
  }

  lemma {:induction false} FundsGrow(db: Db, job: Job, outcomes: seq<Outcome>, n: nat)
    requires job.runId in db.runs && n <= |job.funds| && n <= |outcomes|
    ensures GrowsByHistory(db.nav, AfterFunds(db, job, outcomes, n).nav, job)
  {
    hide GrowsByHistory; hide AfterFund;
    if n == 0 {
      SameRows(db.nav, job);
    } else {
      var before := AfterFunds(db, job, outcomes, n - 1);
      FundsGrow(db, job, outcomes, n - 1);
      FundGrows(before, job, n - 1, outcomes[n - 1]);
      GrowsOn(db.nav, before.nav, AfterFund(before, job, job.funds[n - 1], outcomes[n - 1]).nav, job);
    }
  }

  lemma CallGrows(db: Db, job: Job, call: Call)
    requires |call.outcomes| == |job.funds|
    ensures GrowsByHistory(db.nav, AfterCall(db, job, call).nav, job)
  {
    hide GrowsByHistory; hide AfterFunds; hide Reached;
    SameRows(db.nav, job);
    if call.starts {
      var started := Started(db, job);
      FundsGrow(started, job, call.outcomes, Reached(started, job, call.outcomes, |job.funds|));
    }
  }

  // ----- the session the program works in

  /**
   Committed is what survives; working is what the running transaction sees as its own writes.
   With autoflush the existence query sees the working table, without it only what was flushed,
   which in this program is what was committed.
   */
  class Session {
    var committed: Db
    var working: Db

    constructor (db: Db)
      ensures committed == working == db
    {
      committed, working := db, db;
    }

    method Commit()
      modifies this`committed
      ensures committed == working
    {
      committed := working;
    }

    method Rollback()
      modifies this`working
      ensures working == committed
    {
      working := committed;
    }

    /** The record loop: adds the missing rows, and moves the checkpoint's last date along. */
    method Ingest(job: Job, f: Fund, records: seq<Observation>, cp: Checkpoint)
      returns (written: nat, last: Option<int>)
      requires working.nav == committed.nav
      modifies this`working
      ensures working == old(working).(nav := committed.nav
        + NewRows(OwnerOf(f), records, committed.nav, job.fromDate, cp.lastDate, job.autoflush))
      ensures written == |NewRows(OwnerOf(f), records, committed.nav, job.fromDate, cp.lastDate, job.autoflush)|
      ensures last == LastDate(records, job.fromDate, cp.lastDate, cp.lastDate)
      // the added rows are those of the usable records of new days, the last date is the latest usable one
      ensures committed.nav <= working.nav
      ensures StoresHistory(working.nav[|committed.nav|..], Owner(f.id, f.source, false), records, committed.nav,
                            job.fromDate, cp.lastDate, job.autoflush)
      ensures IsLatestDate(last, records, job.fromDate, cp.lastDate)
    {
      hide StoresHistory; hide IsLatestDate;
      RowsHoldRecords(OwnerOf(f), records, committed.nav, job.fromDate, cp.lastDate, job.autoflush);
      LastDateIsLatest(records, job.fromDate, cp.lastDate);
      written, last := 0, cp.lastDate;
      ghost var base := committed.nav;
      assert base + [] == base;
      for i := 0 to |records|
        invariant committed.nav == base
        invariant working == old(working).(nav := base
          + NewRows(OwnerOf(f), records[..i], base, job.fromDate, cp.lastDate, job.autoflush))
        invariant written == |NewRows(OwnerOf(f), records[..i], base, job.fromDate, cp.lastDate, job.autoflush)|
        invariant last == LastDate(records[..i], job.fromDate, cp.lastDate, cp.lastDate)
      {
        var r := records[i];
        assert records[..i + 1][..i] == records[..i];
        ghost var rows := NewRows(OwnerOf(f), records[..i], base, job.fromDate, cp.lastDate, job.autoflush);
        if Eligible(r, job.fromDate, cp.lastDate) {
          var visible := if job.autoflush then working.nav else committed.nav;
          HasDayConcat(base, rows, f.id, Day(r));
          var exists_ := HasDay(visible, f.id, Day(r));
          if !exists_ {
            assert (base + rows) + [RowFor(OwnerOf(f), r)] == base + (rows + [RowFor(OwnerOf(f), r)]);
            working := working.(nav := working.nav + [RowFor(OwnerOf(f), r)]);
            written := written + 1;
          }
          last := MaxDay(last, Day(r));
        }
      }
      assert records[..|records|] == records;
      ghost var added := NewRows(OwnerOf(f), records, base, job.fromDate, cp.lastDate, job.autoflush);
      assert (base + added)[|base|..] == added;
    }

    /** The turn of one fund; stopped tells that the process died in the middle of it. */
    method ProcessFund(job: Job, f: Fund, outcome: Outcome) returns (stopped: bool)
      requires working == committed && job.runId in committed.runs
      modifies this
      ensures committed == AfterFund(old(committed), job, f, outcome)
      ensures stopped <==> outcome.Crashes? && !IsDone(old(committed), job, f)
      ensures !stopped ==> working == committed
    {
      var key := (job.runId, f.externalId);
      if key in committed.checkpoints && committed.checkpoints[key].status == Completed { return false; }
      var cp := CheckpointOf(committed, job, f);
      working := working.(checkpoints := working.checkpoints[key := cp]);
      var records := job.history(f.externalId);
      if outcome.Succeeds? {
        var written, last := Ingest(job, f, records, cp);
        var run := working.runs[job.runId];
        working := working.(
          checkpoints := working.checkpoints[key := cp.(lastDate := last, status := Completed)],
          runs := working.runs[job.runId :=
            run.(fundsCompleted := run.fundsCompleted + 1, rowsWritten := run.rowsWritten + written)]);
        assert working == Succeeded(old(committed), job, f);
        Commit();
        return false;
      }
      var done := MinInt(outcome.after, |records|);
      var _, _ := Ingest(job, f, records[..done], cp);
      if outcome.Crashes? { return true; }
      Rollback();
      var failed := CheckpointOf(working, job, f).(status := Error, error := Some(outcome.error));
      var run := working.runs[job.runId];
      working := working.(
        checkpoints := working.checkpoints[key := failed],
        runs := working.runs[job.runId := run.(errors := run.errors + [f.externalId + ": " + outcome.error])]);
      Commit();
      return false;
    }

    /** One call of the backfill; a new session starts from the committed state. */
    method BackfillFundHistory(job: Job, call: Call) returns (completed: bool)
      requires |call.outcomes| == |job.funds|
      modifies this
      ensures committed == AfterCall(old(committed), job, call)
      ensures completed ==> working == committed
      ensures GrowsByHistory(old(committed).nav, committed.nav, job)
    {
      CallGrows(committed, job, call);
      hide GrowsByHistory;
      Rollback();
      if !call.starts { return false; }
      if job.runId !in committed.runs {
        working := working.(runs := working.runs[job.runId := Run(job.provider, Running, 0, 0, [])]);
        Commit();
      }
      ghost var started := committed;
      assert started == Started(old(committed), job);
      hide Started; hide AfterFund; hide IsDone; hide AfterFunds; hide Reached;
      NoFundsYet(started, job, call.outcomes);
      for i := 0 to |job.funds|
        invariant working == committed && job.runId in committed.runs
        invariant committed == AfterFunds(started, job, call.outcomes, i)
        invariant Reached(started, job, call.outcomes, i) == i
      {
        NextFund(started, job, call.outcomes, i);
        var stopped := ProcessFund(job, job.funds[i], call.outcomes[i]);
        if stopped {
          ReachedStops(started, job, call.outcomes, i + 1, |job.funds|);
          return false;
        }
      }
      if !call.finishes { return false; }
      var run := working.runs[job.runId];
      working := working.(runs := working.runs[job.runId :=
        run.(status := if run.errors != [] then CompletedWithErrors else RunCompleted)]);
      Commit();
      return true;
    }
  }

  lemma NoFundsYet(db: Db, job: Job, outcomes: seq<Outcome>)
    requires job.runId in db.runs
    ensures AfterFunds(db, job, outcomes, 0) == db && Reached(db, job, outcomes, 0) == 0
  {}

  lemma NextFund(db: Db, job: Job, outcomes: seq<Outcome>, i: nat)
    requires job.runId in db.runs && i < |job.funds| && i < |outcomes| && Reached(db, job, outcomes, i) == i
    ensures AfterFunds(db, job, outcomes, i + 1)
      == AfterFund(AfterFunds(db, job, outcomes, i), job, job.funds[i], outcomes[i])
    ensures Reached(db, job, outcomes, i + 1)
      == if outcomes[i].Crashes? && !IsDone(AfterFunds(db, job, outcomes, i), job, job.funds[i]) then i else i + 1
  {
    hide AfterFund; hide IsDone;
  }

  lemma {:induction false} ReachedStops(db: Db, job: Job, outcomes: seq<Outcome>, k: nat, n: nat)
    requires job.runId in db.runs && 0 < k <= n <= |job.funds| && n <= |outcomes|
    requires Reached(db, job, outcomes, k) == k - 1
    ensures Reached(db, job, outcomes, n) == k - 1
  {
    hide AfterFunds; hide IsDone;
    if k < n { ReachedStops(db, job, outcomes, k, n - 1); }
  }
}
