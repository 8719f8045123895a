/**
 What the refresh guarantees over whole sequences of calls: history is append-only, a failed call leaves the
 tables alone, the lock is released or lost, and the selection is fair.
 */
module RefreshRuns {
  import opened Common
  import opened NavTable
  import opened Ordering
  import opened Refresh

  // ----- append-only

  /** The tables only grow at the end; funds are never removed. */
  ghost predicate Extends(before: Db, after: Db) {
    && before.nav <= after.nav
    && before.market <= after.market
    && |before.funds| <= |after.funds|
  }

  /** What loading records leaves alone, and what it only adds to. */
  ghost predicate LoadExtends(db: Db, p: Progress) {
    Extends(db, p.db) && p.flushed <= p.db.nav && p.db.metrics == db.metrics && p.db.runs == db.runs
  }

  lemma CatalogueStepExtends(db: Db, r: FundRecord, now: int)
    requires CatalogueStep(db, r, now).Ok?
    ensures LoadExtends(db, CatalogueStep(db, r, now).value)
  {
    hide RecordNavRows; hide RecordMarketRows; hide Upserted; hide SourceAfter; hide UniqueKeys;
  }

  lemma NothingLoadedYet(db: Db, records: seq<FundRecord>, now: int, fault: Option<nat>)
    ensures Catalogue(db, records, now, fault, 0).Ok?
    ensures LoadExtends(db, Catalogue(db, records, now, fault, 0).value)
  {}

  lemma LoadsOn(db: Db, p: Progress, q: Progress)
    requires LoadExtends(db, p) && LoadExtends(p.db, q)
    ensures LoadExtends(db, q)
  {}

  lemma NextRecord(db: Db, records: seq<FundRecord>, now: int, fault: Option<nat>, n: nat)
    requires n < |records|
    ensures Catalogue(db, records, now, fault, n + 1).Ok? ==>
      Catalogue(db, records, now, fault, n).Ok? && fault != Some(n)
    ensures Catalogue(db, records, now, fault, n).Ok? && fault != Some(n) ==>
      Catalogue(db, records, now, fault, n + 1)
        == CatalogueStep(Catalogue(db, records, now, fault, n).value.db, records[n], now)
  {
    hide CatalogueStep;
  }

  lemma {:induction false} CatalogueLoadExtends(db: Db, records: seq<FundRecord>, now: int, fault: Option<nat>, n: nat)
    requires n <= |records| && Catalogue(db, records, now, fault, n).Ok?
    ensures LoadExtends(db, Catalogue(db, records, now, fault, n).value)
  {
    hide Catalogue; hide CatalogueStep; hide LoadExtends;
    if n == 0 {
      NothingLoadedYet(db, records, now, fault);
    } else {
      NextRecord(db, records, now, fault, n - 1);
      CatalogueLoadExtends(db, records, now, fault, n - 1);
      var before := Catalogue(db, records, now, fault, n - 1).value;
      CatalogueStepExtends(before.db, records[n - 1], now);
      LoadsOn(db, before, Catalogue(db, records, now, fault, n).value);
    }
  }

  lemma CatalogueExtends(db: Db, records: seq<FundRecord>, now: int, fault: Option<nat>, n: nat)
    requires n <= |records| && Catalogue(db, records, now, fault, n).Ok?
    ensures var p := Catalogue(db, records, now, fault, n).value;
      Extends(db, p.db) && p.flushed <= p.db.nav && p.db.metrics == db.metrics && p.db.runs == db.runs
  {
    CatalogueLoadExtends(db, records, now, fault, n);
    hide Catalogue;
  }

  /** The history pass of a call, over the first n selected funds. */
  function Pass(p: Progress, eligible: seq<FundRecord>, call: Call, n: nat): Result<Progress, RefreshError>
    requires n <= |eligible|
  {
    HistoryPass(p, eligible, call.histories, call.analytics, call.autoflush, call.historyFault, n)
  }

  function Turn(p: Progress, r: FundRecord, call: Call): Result<Progress, RefreshError> {
    HistoryStep(p, r, call.histories, call.analytics, call.autoflush)
  }

  lemma PassStep(p: Progress, eligible: seq<FundRecord>, call: Call, n: nat)
    requires n < |eligible| && Pass(p, eligible, call, n + 1).Ok?
    ensures Pass(p, eligible, call, n).Ok?
    ensures Pass(p, eligible, call, n + 1) == Turn(Pass(p, eligible, call, n).value, eligible[n], call)
  {
    hide HistoryStep;
  }

  lemma TurnExtends(p: Progress, r: FundRecord, call: Call)
    requires Turn(p, r, call).Ok?
    ensures var q := Turn(p, r, call).value;
      && Extends(p.db, q.db) && q.flushed == q.db.nav
      && q.db.funds == p.db.funds && q.db.market == p.db.market && q.db.sources == p.db.sources
  {
    hide HistoryRows; hide RefreshedMetrics;
  }

  /** What a pass leaves alone, and what it only adds to. */
  ghost predicate Grows(p: Progress, q: Progress) {
    && Extends(p.db, q.db) && q.flushed <= q.db.nav
    && q.db.funds == p.db.funds && q.db.market == p.db.market && q.db.sources == p.db.sources
  }

  lemma TurnGrows(p: Progress, q: Progress, r: FundRecord, call: Call)
    requires Grows(p, q) && Turn(q, r, call).Ok?
    ensures Grows(p, Turn(q, r, call).value) && Turn(q, r, call).value.flushed == Turn(q, r, call).value.db.nav
  {
    TurnExtends(q, r, call);
    hide Turn;
  }

  lemma {:induction false} PassGrows(p: Progress, eligible: seq<FundRecord>, call: Call, n: nat)
    requires n <= |eligible| && p.flushed <= p.db.nav && Pass(p, eligible, call, n).Ok?
    ensures Grows(p, Pass(p, eligible, call, n).value)
    ensures var q := Pass(p, eligible, call, n).value; n > 0 ==> q.flushed == q.db.nav
  {
    if n == 0 { return; }
    hide Pass; hide Turn; hide Grows;
    PassStep(p, eligible, call, n - 1);
    PassGrows(p, eligible, call, n - 1);
    TurnGrows(p, Pass(p, eligible, call, n - 1).value, eligible[n - 1], call);
  }

  lemma PassExtends(p: Progress, eligible: seq<FundRecord>, call: Call, n: nat)
    requires n <= |eligible| && p.flushed <= p.db.nav && Pass(p, eligible, call, n).Ok?
    ensures var q := Pass(p, eligible, call, n).value;
      && Extends(p.db, q.db) && q.flushed <= q.db.nav && (n > 0 ==> q.flushed == q.db.nav)
      && q.db.funds == p.db.funds && q.db.market == p.db.market && q.db.sources == p.db.sources
  {
    PassGrows(p, eligible, call, n);
    hide Pass;
  }

  // ----- the effect of a turn on the days

  lemma DayGetsStored(p: Progress, i: nat, history: seq<Observation>, autoflush: bool, k: nat)
    requires i < |p.db.funds| && p.flushed <= p.db.nav && k < |history|
    ensures HasDay(p.db.nav + HistoryRows(p, i, Some(history), autoflush), i, Day(history[k]))
  {
    var o := Owner(i, p.db.funds[i].source, true);
    var stored := if autoflush then p.db.nav else p.flushed;
    var day := Day(history[k]);
    var rows := HistoryRows(p, i, Some(history), autoflush);
    DaysOfNewRows(o, history, stored, None, autoflush, day);
    assert Eligible(history[k], None, None);
    hide HasDay; hide NewRows;
    HasDayConcat(p.db.nav, rows, i, day);
    if HasDay(stored, i, day) { HasDayPrefix(stored, p.db.nav, i, day); }
  }

  lemma OtherFund(funds: seq<Fund>, a: string, b: string)
    requires a != b && FirstMatch(funds, ByExternal(a)).Some?
    ensures FirstMatch(funds, ByExternal(b)) != FirstMatch(funds, ByExternal(a))
  {}

  /** The catalogue part of a call's work. */
  function LoadedCatalogue(db: Db, call: Call): Result<Progress, RefreshError>
    requires call.records.Some?
  {
    Catalogue(db, call.records.value, call.now, call.catalogueFault, |call.records.value|)
  }

  function Selection(p: Progress, call: Call): seq<FundRecord>
    requires call.records.Some?
  {
    if call.isHistorical then EligibleRecords(p, call.autoflush, call.records.value, call.limit) else []
  }

  /** Successful work is a loaded catalogue followed by a full history pass. */
  lemma WorkParts(db: Db, call: Call)
    requires Work(db, call).Ok?
    ensures call.records.Some? && LoadedCatalogue(db, call).Ok?
    ensures var p := LoadedCatalogue(db, call).value;
      var selection := Selection(p, call);
      && Pass(p, selection, call, |selection|).Ok?
      && Work(db, call).value == Pass(p, selection, call, |selection|).value.db
  {
    hide Catalogue; hide HistoryPass; hide EligibleRecords;
  }

  lemma WorkExtends(db: Db, call: Call)
    requires Work(db, call).Ok?
    ensures Extends(db, Work(db, call).value)
  {
    hide Work; hide Pass; hide Selection;
    WorkParts(db, call);
    CatalogueExtends(db, call.records.value, call.now, call.catalogueFault, |call.records.value|);
    var p := LoadedCatalogue(db, call).value;
    hide Catalogue; hide LoadedCatalogue;
    PassExtends(p, Selection(p, call), call, |Selection(p, call)|);
  }

  /** The database the work of a call starts from: one more run on record. */
  function StartedDb(db: Db): Db { db.(runs := db.runs + [IngestionRun(Running, 0, 0)]) }

  function AfterRefreshes(w: World, calls: seq<Call>): World {
    if calls == [] then w else AfterRefresh(AfterRefreshes(w, calls[..|calls| - 1]), calls[|calls| - 1]).0
  }

  /** Across any sequence of refreshes, a committed NAV or market row is never changed, moved or removed. */
  lemma {:induction false} HistoryIsAppendOnly(w: World, calls: seq<Call>)
    ensures Extends(w.db, AfterRefreshes(w, calls).db)
  {
    if calls != [] {
      HistoryIsAppendOnly(w, calls[..|calls| - 1]);
      OneRefreshExtends(AfterRefreshes(w, calls[..|calls| - 1]), calls[|calls| - 1]);
    }
  }

  lemma OneRefreshExtends(w: World, call: Call)
    ensures Extends(w.db, AfterRefresh(w, call).0.db)
  {
    var started := StartedDb(w.db);
    hide Work;
    if Work(started, call).Ok? { WorkExtends(started, call); }
  }

  // ----- all or nothing, and the lock

  /**
   A call that raises inside its try block leaves every table as it was and one more run on record, marked as an
   error if that mark can be committed; a call refused by the lock changes nothing at all.
   */
  lemma FailedRefreshChangesNothing(w: World, call: Call)
    requires AfterRefresh(w, call).1.Some?
    ensures SameTables(w.db, AfterRefresh(w, call).0.db)
    ensures w.locked ==> AfterRefresh(w, call).0 == w
    ensures !w.locked && call.runCommits ==>
      AfterRefresh(w, call).0.db.runs
        == w.db.runs + [IngestionRun(if call.errorCommits then RunStatus.Error else Running, 0, 0)]
  {
    hide Work;
  }

  /** The lock is free after a call that got it, unless the commit of the run row raised. */
  lemma LockReleasedUnlessRunCommitFails(w: World, call: Call)
    ensures AfterRefresh(w, call).0.locked <==> w.locked || !call.runCommits
  {
    hide Work;
  }

  /** Once the commit of a run row has raised, every later refresh of the process is refused. */
  lemma {:induction false} LostLockStopsRefreshing(w: World, call: Call, later: seq<Call>)
    requires !w.locked && !call.runCommits
    ensures AfterRefreshes(AfterRefresh(w, call).0, later) == AfterRefresh(w, call).0
    ensures forall c :: AfterRefresh(AfterRefreshes(AfterRefresh(w, call).0, later), c).1 == Some(AlreadyRunning)
  {
    if later != [] { LostLockStopsRefreshing(w, call, later[..|later| - 1]); }
  }

  // ----- the selection

  lemma ByNeedIsAnOrder(p: Progress, autoflush: bool)
    ensures TotalPreorder(ByNeed(p, autoflush))
  {
    var le := ByNeed(p, autoflush);
    hide HistoryCount;
    forall a, b ensures le(a, b) || le(b, a) { LexTotal(a.externalId, b.externalId); }
    forall a, b, c | le(a, b) && le(b, c) ensures le(a, c) {
      if LexLe(a.externalId, b.externalId) && LexLe(b.externalId, c.externalId) {
        LexTransitive(a.externalId, b.externalId, c.externalId);
      }
    }
  }

  /**
   The selection is fair: what is selected and what is left are together exactly the active records, the limit is
   used in full, and no selected fund has more stored rows than a fund left out.
   */
  lemma SelectionIsFair(p: Progress, autoflush: bool, records: seq<FundRecord>, limit: int)
    requires limit > 0
    ensures var sorted, selected := StableSort(ActiveRecords(records), ByNeed(p, autoflush)),
                                    EligibleRecords(p, autoflush, records, Some(limit));
      && selected <= sorted
      && multiset(sorted) == multiset(ActiveRecords(records))
      && |selected| == MinInt(limit, |ActiveRecords(records)|)
      && forall i, j :: 0 <= i < |selected| <= j < |sorted| ==>
           HistoryCount(p, selected[i], autoflush) <= HistoryCount(p, sorted[j], autoflush)
  {
    hide HistoryCount;
    ByNeedIsAnOrder(p, autoflush);
    SortIsStable(ActiveRecords(records), ByNeed(p, autoflush));
    var sorted := StableSort(ActiveRecords(records), ByNeed(p, autoflush));
    var selected := EligibleRecords(p, autoflush, records, Some(limit));
    hide StableSort;
    forall i, j | 0 <= i < |selected| <= j < |sorted|
      ensures HistoryCount(p, selected[i], autoflush) <= HistoryCount(p, sorted[j], autoflush)
    {
      assert NeedsMore(p, autoflush, sorted[i], sorted[j]);
    }
  }
}
