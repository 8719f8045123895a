/** The backfill fed by the history reader: row uniqueness as a condition on the payloads. */
module FipiranBackfill {
  import opened Backfill
  import opened BackfillFigures
  import opened BackfillRuns
  import opened Common
  import opened FipiranHistory
  import opened NavContents
  import opened NavTable

  /** The histories of a job are what the reader makes of the payloads. */
  ghost predicate Fed(job: Job, payload: string -> seq<NavItem>) {
    forall i :: 0 <= i < |job.funds| ==>
      job.history(job.funds[i].externalId) == HistoryOf(payload(job.funds[i].externalId))
  }

  /** The payloads of the funds completed so far have their first items on different days. */
  ghost predicate CommittedPayloadsClean(db: Db, job: Job, payload: string -> seq<NavItem>) {
    forall i :: 0 <= i < |job.funds| && IsDone(db, job, job.funds[i]) ==>
      FirstsOnOwnDays(payload(job.funds[i].externalId))
  }

  /** Whatever is stored already, clean payloads keep the rows unique without autoflush, over any calls. */
  lemma CleanPayloadsKeepRowsUnique(db0: Db, job: Job, payload: string -> seq<NavItem>, calls: seq<Call>)
    requires ValidJob(job) && Fresh(db0, job) && Fed(job, payload)
    requires forall i :: 0 <= i < |calls| ==> |calls[i].outcomes| == |job.funds|
    requires CommittedPayloadsClean(AfterCalls(db0, job, calls), job, payload)
    ensures UniqueRows(AfterCalls(db0, job, calls).nav) <==> UniqueRows(db0.nav)
  {
    RowsStayUniqueIff(db0, job, calls);
    var db := AfterCalls(db0, job, calls);
    hide AfterCalls; hide UniqueRows; hide HistoryOf; hide FirstsOnOwnDays; hide DistinctNewDays;
    forall i | 0 <= i < |job.funds| && IsDone(db, job, job.funds[i])
      ensures DistinctNewDays(OwnerOf(job.funds[i]), job.history(job.funds[i].externalId), db0.nav, job.fromDate)
    {
      UniqueHistory(OwnerOf(job.funds[i]), payload(job.funds[i].externalId), db0.nav, job.fromDate);
    }
  }

  /** From an empty table and without a start date the condition is exact. */
  lemma FirstBackfillUniqueIff(db0: Db, job: Job, payload: string -> seq<NavItem>, calls: seq<Call>)
    requires ValidJob(job) && Fresh(db0, job) && Fed(job, payload)
    requires forall i :: 0 <= i < |calls| ==> |calls[i].outcomes| == |job.funds|
    requires db0.nav == [] && job.fromDate.None? && !job.autoflush
    ensures UniqueRows(AfterCalls(db0, job, calls).nav) <==>
      CommittedPayloadsClean(AfterCalls(db0, job, calls), job, payload)
  {
    RowsStayUniqueIff(db0, job, calls);
    var db := AfterCalls(db0, job, calls);
    hide AfterCalls; hide HistoryOf; hide FirstsOnOwnDays; hide DistinctNewDays; hide NewRows;
    forall i | 0 <= i < |job.funds| && IsDone(db, job, job.funds[i])
      ensures DistinctNewDays(OwnerOf(job.funds[i]), job.history(job.funds[i].externalId), [], None)
        <==> FirstsOnOwnDays(payload(job.funds[i].externalId))
    {
      var o, items := OwnerOf(job.funds[i]), payload(job.funds[i].externalId);
      FirstHistoryUniqueIff(o, items);
      NewRowsUniqueIff(o, HistoryOf(items), [], None, false);
    }
    hide UniqueRows;
    assert UniqueRows(db.nav) <==> CommittedDaysDistinct(db0, db, job) by { NothingIsUnique(); }
  }

  lemma NothingIsUnique()
    ensures UniqueRows([])
  {}

  // ----- from the payload to the table

  /** A stored row that tells an item of a payload, for a fund. */
  ghost predicate RowTells(row: NavRow, f: Fund, item: NavItem) {
    && row.fundId == f.id && row.source == f.source && row.netAssets.None? && row.quality == "valid"
    && row.nav == item.nav && row.observedAt == item.moment
    && row.day == (item.moment.at + item.moment.offset) / 86400
  }

  ghost predicate TellsFirst(row: NavRow, f: Fund, items: seq<NavItem>) {
    exists i :: IsFirst(items, i) && RowTells(row, f, items[i])
  }

  lemma HeldRecordTells(row: NavRow, f: Fund, items: seq<NavItem>, k: nat)
    requires k < |HistoryOf(items)| && HoldsRecord(row, Owner(f.id, f.source, false), HistoryOf(items)[k])
    ensures TellsFirst(row, f, items)
  {
    var o := HistoryOf(items)[k];
    hide HistoryOf; hide IsFirst;
    HistoryInFigures(items, o);
    var i :| IsFirst(items, i) && TellsItem(o, items[i]);
    FirstInRange(items, i);
    assert RowTells(row, f, items[i]);
  }

  lemma StoredRowsTell(rows: seq<NavRow>, f: Fund, items: seq<NavItem>, stored: seq<NavRow>, from: Option<int>,
                       autoflush: bool, k: nat)
    requires StoresHistory(rows, Owner(f.id, f.source, false), HistoryOf(items), stored, from, None, autoflush)
    requires k < |rows|
    ensures TellsFirst(rows[k], f, items)
  {
    hide HistoryOf; hide HoldsRecord; hide PicksThose; hide TellsFirst; hide IncreasingPicks;
    var o := Owner(f.id, f.source, false);
    var picks: seq<nat> :| HoldsExactly(rows, o, HistoryOf(items), picks, stored, from, None, autoflush);
    HeldRecordTells(rows[k], f, items, picks[k]);
  }

  /** The rows a fund has gained since the run began. */
  ghost predicate GainedRowsTell(db0: Db, db: Db, f: Fund, items: seq<NavItem>) {
    var own0, own := RowsOf(db0.nav, f.id), RowsOf(db.nav, f.id);
    && own0 <= own
    && forall k :: |own0| <= k < |own| ==> TellsFirst(own[k], f, items)
  }

  lemma CompletedRowsTell(db0: Db, db: Db, job: Job, f: Fund, items: seq<NavItem>)
    requires FundRows(db0, db, job, f) && job.history(f.externalId) == HistoryOf(items)
    ensures GainedRowsTell(db0, db, f, items)
  {
    hide StoresHistory; hide IsLatestDate; hide HistoryOf; hide TellsFirst; hide RowsOf;
    var own0, own := RowsOf(db0.nav, f.id), RowsOf(db.nav, f.id);
    forall k | |own0| <= k < |own| ensures TellsFirst(own[k], f, items) {
      if CompletedIn(db, job, f) {
        assert own[|own0|..][k - |own0|] == own[k];
        StoredRowsTell(own[|own0|..], f, items, db0.nav, job.fromDate, job.autoflush, k - |own0|);
      }
    }
  }

  /**
   From payload to table: after any calls, every row a fund has gained tells the first listed item of its instant in
   the fund's payload, with the NAV and the moment of that item.
   */
  lemma RowsTellPayloads(db0: Db, job: Job, payload: string -> seq<NavItem>, calls: seq<Call>)
    requires ValidJob(job) && Fresh(db0, job) && Fed(job, payload)
    requires forall i :: 0 <= i < |calls| ==> |calls[i].outcomes| == |job.funds|
    ensures forall i :: 0 <= i < |job.funds| ==>
      GainedRowsTell(db0, AfterCalls(db0, job, calls), job.funds[i], payload(job.funds[i].externalId))
  {
    CommittedRows(db0, job, calls);
    hide AfterCalls; hide FundRows; hide GainedRowsTell; hide HistoryOf;
    forall i | 0 <= i < |job.funds|
      ensures GainedRowsTell(db0, AfterCalls(db0, job, calls), job.funds[i], payload(job.funds[i].externalId))
    {
      CompletedRowsTell(db0, AfterCalls(db0, job, calls), job, job.funds[i], payload(job.funds[i].externalId));
    }
  }
}
