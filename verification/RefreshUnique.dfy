/**
 At most one NAV row and one market row for a fund and a day: what the refresh needs to keep it so, with and
 without queries that see pending rows.
 */
module RefreshUnique {
  import opened Common
  import opened NavTable
  import opened Refresh
  import opened RefreshRuns

  ghost predicate UniqueMarketRows(rows: seq<MarketRow>) {
    forall i, j :: 0 <= i < j < |rows| ==> rows[i].fundId != rows[j].fundId || rows[i].day != rows[j].day
  }

  lemma CatalogueStepUnique(db: Db, r: FundRecord, now: int)
    requires CatalogueStep(db, r, now).Ok?
    ensures var after := CatalogueStep(db, r, now).value.db;
      && (UniqueRows(after.nav) <==> UniqueRows(db.nav))
      && (UniqueMarketRows(db.market) ==> UniqueMarketRows(after.market))
  {
    hide UniqueRows;
    var i := FundIndex(db.funds, r);
    var rows := RecordNavRows(db.nav, i, r, now);
    if rows == [] {
      assert db.nav + rows == db.nav;
    } else {
      UniqueAppend(db.nav, rows[0]);
    }
    if UniqueMarketRows(db.market) { MarketStepUnique(db.market, i, r, now); }
  }

  lemma MarketStepUnique(market: seq<MarketRow>, i: nat, r: FundRecord, now: int)
    requires UniqueMarketRows(market)
    ensures UniqueMarketRows(market + RecordMarketRows(market, i, r, now))
  {
    var after := market + RecordMarketRows(market, i, r, now);
    forall a, b | 0 <= a < b < |after| ensures after[a].fundId != after[b].fundId || after[a].day != after[b].day {
      assert after[a] == market[a];
    }
  }

  lemma {:induction false} CatalogueUnique(db: Db, records: seq<FundRecord>, now: int, fault: Option<nat>, n: nat)
    requires n <= |records| && Catalogue(db, records, now, fault, n).Ok?
    ensures var after := Catalogue(db, records, now, fault, n).value.db;
      && (UniqueRows(after.nav) <==> UniqueRows(db.nav))
      && (UniqueMarketRows(db.market) ==> UniqueMarketRows(after.market))
  {
    if n > 0 {
      CatalogueUnique(db, records, now, fault, n - 1);
      hide CatalogueStep; hide UniqueRows; hide UniqueMarketRows;
      CatalogueStepUnique(Catalogue(db, records, now, fault, n - 1).value.db, records[n - 1], now);
    }
  }

  /** No observation falls on the day of a row of the fund that has not been flushed yet. */
  ghost predicate MissesPending(p: Progress, i: nat, history: seq<Observation>) {
    forall k :: 0 <= k < |history| && HasDay(p.db.nav, i, Day(history[k])) ==> HasDay(p.flushed, i, Day(history[k]))
  }

  /** The history has one observation per new day, and none on a day that is still pending for the fund. */
  ghost predicate CleanHistory(p: Progress, i: nat, history: seq<Observation>)
    requires i < |p.db.funds|
  {
    && DistinctNewDays(Owner(i, p.db.funds[i].source, true), history, p.flushed, None)
    && MissesPending(p, i, history)
  }

  /**
   Fetching one history keeps the rows unique exactly when the session flushes before queries, or the history is
   clean: no repeated new day, and nothing on the day of a row that has not been flushed yet.
   */
  lemma HistoryKeepsUniqueIff(p: Progress, i: nat, answer: Option<seq<Observation>>, autoflush: bool)
    requires i < |p.db.funds| && p.flushed <= p.db.nav
    ensures UniqueRows(p.db.nav + HistoryRows(p, i, answer, autoflush)) <==>
      UniqueRows(p.db.nav) && (autoflush || answer.None? || CleanHistory(p, i, answer.value))
  {
    if answer.None? {
      assert p.db.nav + [] == p.db.nav;
    } else {
      var o := Owner(i, p.db.funds[i].source, true);
      var history := answer.value;
      var stored := if autoflush then p.db.nav else p.flushed;
      var rows := NewRows(o, history, stored, None, None, autoflush);
      UniqueConcat(p.db.nav, rows);
      NewRowsUniqueIff(o, history, stored, None, autoflush);
      hide UniqueRows; hide NewRows; hide DistinctNewDays;
      forall k | 0 <= k < |rows|
        ensures !HasDay(stored, i, rows[k].day)
        ensures exists m :: 0 <= m < |history| && Day(history[m]) == rows[k].day
      {
        assert HasDay(rows, i, rows[k].day);
        DaysOfNewRows(o, history, stored, None, autoflush, rows[k].day);
      }
      if !autoflush {
        if forall k :: 0 <= k < |rows| ==> !HasDay(p.db.nav, rows[k].fundId, rows[k].day) {
          forall k | 0 <= k < |history| && HasDay(p.db.nav, i, Day(history[k]))
            ensures HasDay(p.flushed, i, Day(history[k]))
          {
            DaysOfNewRows(o, history, stored, None, autoflush, Day(history[k]));
            assert Eligible(history[k], None, None);
          }
        }
      }
    }
  }

  /** The fund of a record is answered with a clean history, if it is answered at all. */
  ghost predicate TurnClean(p: Progress, r: FundRecord, call: Call) {
    match FirstMatch(p.db.funds, ByExternal(r.externalId))
    case None => true
    case Some(i) => call.histories(r.externalId).None? || CleanHistory(p, i, call.histories(r.externalId).value)
  }

  lemma TurnUniqueIff(p: Progress, r: FundRecord, call: Call)
    requires p.flushed <= p.db.nav && Turn(p, r, call).Ok?
    ensures UniqueRows(Turn(p, r, call).value.db.nav) <==>
      UniqueRows(p.db.nav) && (call.autoflush || TurnClean(p, r, call))
  {
    hide UniqueRows; hide HistoryRows; hide RefreshedMetrics; hide CleanHistory;
    var i := FirstMatch(p.db.funds, ByExternal(r.externalId)).value;
    HistoryKeepsUniqueIff(p, i, call.histories(r.externalId), call.autoflush);
  }

  /** Each of the first n selected funds is answered cleanly when its turn comes. */
  ghost predicate TurnsClean(p: Progress, eligible: seq<FundRecord>, call: Call, n: nat)
    requires n <= |eligible|
  {
    forall k: nat :: k < n && Pass(p, eligible, call, k).Ok? ==>
      TurnClean(Pass(p, eligible, call, k).value, eligible[k], call)
  }

  lemma TurnsCleanStep(p: Progress, eligible: seq<FundRecord>, call: Call, n: nat)
    requires n < |eligible| && Pass(p, eligible, call, n).Ok?
    ensures TurnsClean(p, eligible, call, n + 1) <==>
      TurnsClean(p, eligible, call, n) && TurnClean(Pass(p, eligible, call, n).value, eligible[n], call)
  {
    hide Pass; hide TurnClean;
  }

  lemma PassStart(p: Progress, eligible: seq<FundRecord>, call: Call)
    ensures Pass(p, eligible, call, 0) == Ok(p) && TurnsClean(p, eligible, call, 0)
  {}

  /** The history pass keeps the rows unique exactly when it flushes before queries or every turn is clean. */
  lemma {:induction false} PassUniqueIff(p: Progress, eligible: seq<FundRecord>, call: Call, n: nat)
    requires n <= |eligible| && p.flushed <= p.db.nav && Pass(p, eligible, call, n).Ok?
    ensures UniqueRows(Pass(p, eligible, call, n).value.db.nav) <==>
      UniqueRows(p.db.nav) && (call.autoflush || TurnsClean(p, eligible, call, n))
  {
    hide UniqueRows; hide Turn; hide TurnClean; hide Pass; hide TurnsClean;
    if n == 0 {
      PassStart(p, eligible, call);
    } else {
      PassStep(p, eligible, call, n - 1);
      PassUniqueIff(p, eligible, call, n - 1);
      PassExtends(p, eligible, call, n - 1);
      TurnUniqueIff(Pass(p, eligible, call, n - 1).value, eligible[n - 1], call);
      TurnsCleanStep(p, eligible, call, n - 1);
    }
  }

  // ----- the same, told on the loaded catalogue

  /** The upstream's answer for a record never puts two observations on one day that is not stored. */
  ghost predicate AnswerDistinct(db: Db, r: FundRecord, call: Call) {
    match FirstMatch(db.funds, ByExternal(r.externalId))
    case None => true
    case Some(i) => call.histories(r.externalId).Some? ==>
      DistinctNewDays(Owner(i, db.funds[i].source, true), call.histories(r.externalId).value, db.nav, None)
  }

  /** The answer has no observation on the day of a row of its fund that is still pending. */
  ghost predicate AnswerMissesPending(p: Progress, r: FundRecord, call: Call) {
    match FirstMatch(p.db.funds, ByExternal(r.externalId))
    case None => true
    case Some(i) => call.histories(r.externalId).Some? ==> MissesPending(p, i, call.histories(r.externalId).value)
  }

  lemma CleanIff(p: Progress, i: nat, history: seq<Observation>)
    requires i < |p.db.funds| && p.flushed <= p.db.nav
    ensures CleanHistory(p, i, history) <==>
      && DistinctNewDays(Owner(i, p.db.funds[i].source, true), history, p.db.nav, None)
      && MissesPending(p, i, history)
  {
    hide HasDay;
    forall k | 0 <= k < |history| && HasDay(p.flushed, i, Day(history[k]))
      ensures HasDay(p.db.nav, i, Day(history[k]))
    {
      HasDayPrefix(p.flushed, p.db.nav, i, Day(history[k]));
    }
  }

  lemma TurnCleanIff(p: Progress, r: FundRecord, call: Call)
    requires p.flushed <= p.db.nav
    ensures TurnClean(p, r, call) <==> AnswerDistinct(p.db, r, call) && AnswerMissesPending(p, r, call)
    ensures p.flushed == p.db.nav ==> AnswerMissesPending(p, r, call)
  {
    var found := FirstMatch(p.db.funds, ByExternal(r.externalId));
    if found.Some? && call.histories(r.externalId).Some? {
      CleanIff(p, found.value, call.histories(r.externalId).value);
    }
    hide FirstMatch; hide DistinctNewDays; hide HasDay; hide CleanHistory;
  }

  /** Every observation of the answer for a record is on a stored day. */
  ghost predicate AnswerStored(db: Db, r: FundRecord, call: Call) {
    match FirstMatch(db.funds, ByExternal(r.externalId))
    case None => true
    case Some(i) => call.histories(r.externalId).Some? ==> DaysStored(db.nav, i, call.histories(r.externalId).value)
  }

  ghost predicate DaysStored(nav: seq<NavRow>, i: nat, history: seq<Observation>) {
    forall k :: 0 <= k < |history| ==> HasDay(nav, i, Day(history[k]))
  }

  lemma TurnStoresDays(p: Progress, r: FundRecord, call: Call)
    requires p.flushed <= p.db.nav && Turn(p, r, call).Ok?
    ensures AnswerStored(Turn(p, r, call).value.db, r, call)
  {
    var i, answer := FirstMatch(p.db.funds, ByExternal(r.externalId)).value, call.histories(r.externalId);
    if answer.Some? {
      var after := p.db.nav + HistoryRows(p, i, answer, call.autoflush);
      forall k | 0 <= k < |answer.value| ensures HasDay(after, i, Day(answer.value[k])) {
        DayGetsStored(p, i, answer.value, call.autoflush, k);
      }
    }
    hide HistoryRows; hide RefreshedMetrics; hide FirstMatch; hide HasDay;
  }

  lemma StoredStays(before: Db, after: Db, r: FundRecord, call: Call)
    requires after.funds == before.funds && before.nav <= after.nav && AnswerStored(before, r, call)
    ensures AnswerStored(after, r, call)
  {
    hide FirstMatch; hide HasDay;
    var found, answer := FirstMatch(before.funds, ByExternal(r.externalId)), call.histories(r.externalId);
    if found.Some? && answer.Some? {
      forall k | 0 <= k < |answer.value| ensures HasDay(after.nav, found.value, Day(answer.value[k])) {
        HasDayPrefix(before.nav, after.nav, found.value, Day(answer.value[k]));
      }
    }
  }

  /** Once a record has had its turn, its answer stays stored for the rest of the pass. */
  lemma {:induction false} PassStoresDays(p: Progress, eligible: seq<FundRecord>, call: Call, j: nat, n: nat)
    requires j < n <= |eligible| && p.flushed <= p.db.nav && Pass(p, eligible, call, n).Ok?
    ensures AnswerStored(Pass(p, eligible, call, n).value.db, eligible[j], call)
  {
    hide Pass; hide Turn; hide AnswerStored;
    PassStep(p, eligible, call, n - 1);
    PassExtends(p, eligible, call, n - 1);
    var q := Pass(p, eligible, call, n - 1).value;
    if j == n - 1 {
      TurnStoresDays(q, eligible[j], call);
    } else {
      PassStoresDays(p, eligible, call, j, n - 1);
      TurnExtends(q, eligible[n - 1], call);
      StoredStays(q.db, Turn(q, eligible[n - 1], call).value.db, eligible[j], call);
    }
  }

  lemma StoredIsDistinct(db: Db, r: FundRecord, call: Call)
    requires AnswerStored(db, r, call)
    ensures AnswerDistinct(db, r, call)
  {
    hide FirstMatch; hide HasDay;
  }

  lemma TurnKeepsOtherRows(p: Progress, r: FundRecord, call: Call, i: nat)
    requires Turn(p, r, call).Ok? && FirstMatch(p.db.funds, ByExternal(r.externalId)) != Some(i)
    ensures RowsOf(Turn(p, r, call).value.db.nav, i) == RowsOf(p.db.nav, i)
  {
    var q := FirstMatch(p.db.funds, ByExternal(r.externalId)).value;
    var rows := HistoryRows(p, q, call.histories(r.externalId), call.autoflush);
    RowsOfConcat(p.db.nav, rows, i);
    RowsOfOwn(rows, q, i);
    hide HistoryRows; hide RefreshedMetrics; hide RowsOf; hide FirstMatch;
  }

  /** The id is not among the first n records. */
  ghost predicate NotAmong(eligible: seq<FundRecord>, n: nat, id: string)
    requires n <= |eligible|
  {
    forall j :: 0 <= j < n ==> eligible[j].externalId != id
  }

  /** A fund that has not had its turn still has the rows it had. */
  lemma {:induction false} PassKeepsOtherRows(p: Progress, eligible: seq<FundRecord>, call: Call, n: nat, id: string)
    requires n <= |eligible| && p.flushed <= p.db.nav && Pass(p, eligible, call, n).Ok?
    requires NotAmong(eligible, n, id) && FirstMatch(p.db.funds, ByExternal(id)).Some?
    ensures var i := FirstMatch(p.db.funds, ByExternal(id)).value;
      RowsOf(Pass(p, eligible, call, n).value.db.nav, i) == RowsOf(p.db.nav, i)
  {
    if n == 0 { return; }
    OtherFund(p.db.funds, id, eligible[n - 1].externalId);
    hide Pass; hide Turn; hide RowsOf; hide FirstMatch;
    PassStep(p, eligible, call, n - 1);
    PassExtends(p, eligible, call, n - 1);
    PassKeepsOtherRows(p, eligible, call, n - 1, id);
    TurnKeepsOtherRows(Pass(p, eligible, call, n - 1).value, eligible[n - 1], call,
                       FirstMatch(p.db.funds, ByExternal(id)).value);
  }

  lemma DistinctByOwnRows(o: Owner, history: seq<Observation>, a: seq<NavRow>, b: seq<NavRow>)
    requires RowsOf(a, o.id) == RowsOf(b, o.id) && DistinctNewDays(o, history, a, None)
    ensures DistinctNewDays(o, history, b, None)
  {
    hide HasDay; hide RowsOf;
    forall i | 0 <= i < |history| ensures HasDay(a, o.id, Day(history[i])) == HasDay(b, o.id, Day(history[i])) {
      HasDayOfOwnRows(a, o.id, Day(history[i]));
      HasDayOfOwnRows(b, o.id, Day(history[i]));
    }
  }

  lemma SameAnswerDistinct(a: Db, b: Db, r: FundRecord, call: Call)
    requires a.funds == b.funds
    requires var found := FirstMatch(a.funds, ByExternal(r.externalId));
      found.Some? && RowsOf(a.nav, found.value) == RowsOf(b.nav, found.value)
    ensures AnswerDistinct(a, r, call) <==> AnswerDistinct(b, r, call)
  {
    hide RowsOf; hide DistinctNewDays; hide FirstMatch;
    var i, answer := FirstMatch(a.funds, ByExternal(r.externalId)).value, call.histories(r.externalId);
    if answer.Some? {
      var o := Owner(i, a.funds[i].source, true);
      if DistinctNewDays(o, answer.value, a.nav, None) { DistinctByOwnRows(o, answer.value, a.nav, b.nav); }
      if DistinctNewDays(o, answer.value, b.nav, None) { DistinctByOwnRows(o, answer.value, b.nav, a.nav); }
    }
  }

  /** The answers for the first n records. */
  ghost predicate AnswersDistinct(db: Db, eligible: seq<FundRecord>, call: Call, n: nat)
    requires n <= |eligible|
  {
    forall k :: 0 <= k < n ==> AnswerDistinct(db, eligible[k], call)
  }

  /** When its turn comes, an answer repeats new days exactly if it did before the pass. */
  lemma LaterTurnDistinct(p: Progress, eligible: seq<FundRecord>, call: Call, n: nat)
    requires n < |eligible| && p.flushed <= p.db.nav && Pass(p, eligible, call, n).Ok?
    requires AnswersDistinct(p.db, eligible, call, n)
    ensures AnswerDistinct(Pass(p, eligible, call, n).value.db, eligible[n], call)
      <==> AnswerDistinct(p.db, eligible[n], call)
  {
    var q, r := Pass(p, eligible, call, n).value, eligible[n];
    PassExtends(p, eligible, call, n);
    var found := FirstMatch(p.db.funds, ByExternal(r.externalId));
    if !NotAmong(eligible, n, r.externalId) {
      var j :| 0 <= j < n && eligible[j].externalId == r.externalId;
      hide Pass; hide HasDay; hide DistinctNewDays; hide FirstMatch;
      PassStoresDays(p, eligible, call, j, n);
      assert AnswerDistinct(p.db, eligible[j], call);
      StoredIsDistinct(q.db, r, call);
    } else if found.Some? {
      hide Pass; hide AnswerDistinct; hide NotAmong;
      PassKeepsOtherRows(p, eligible, call, n, r.externalId);
      SameAnswerDistinct(p.db, q.db, r, call);
    }
  }

  /** Only the first turn can meet a pending row: the condition on all turns is one on the loaded catalogue. */
  lemma {:induction false} TurnsCleanIff(p: Progress, eligible: seq<FundRecord>, call: Call, n: nat)
    requires n <= |eligible| && p.flushed <= p.db.nav && Pass(p, eligible, call, n).Ok?
    ensures TurnsClean(p, eligible, call, n) <==>
      && AnswersDistinct(p.db, eligible, call, n)
      && (n > 0 ==> AnswerMissesPending(p, eligible[0], call))
  {
    PassStart(p, eligible, call);
    if n == 0 { return; }
    hide Pass; hide TurnClean; hide TurnsClean; hide AnswerDistinct; hide AnswerMissesPending; hide AnswersDistinct;
    PassStep(p, eligible, call, n - 1);
    TurnsCleanIff(p, eligible, call, n - 1);
    TurnsCleanStep(p, eligible, call, n - 1);
    AnswersDistinctStep(p.db, eligible, call, n - 1);
    if AnswersDistinct(p.db, eligible, call, n - 1) { NextTurnClean(p, eligible, call, n - 1); }
  }

  lemma AnswersDistinctStep(db: Db, eligible: seq<FundRecord>, call: Call, n: nat)
    requires n < |eligible|
    ensures AnswersDistinct(db, eligible, call, n + 1) <==>
      AnswersDistinct(db, eligible, call, n) && AnswerDistinct(db, eligible[n], call)
  {
    hide AnswerDistinct;
  }

  lemma NextTurnClean(p: Progress, eligible: seq<FundRecord>, call: Call, n: nat)
    requires n < |eligible| && p.flushed <= p.db.nav && Pass(p, eligible, call, n).Ok?
    requires AnswersDistinct(p.db, eligible, call, n)
    ensures TurnClean(Pass(p, eligible, call, n).value, eligible[n], call) <==>
      AnswerDistinct(p.db, eligible[n], call) && (n == 0 ==> AnswerMissesPending(p, eligible[n], call))
  {
    PassStart(p, eligible, call);
    hide Pass; hide TurnClean; hide AnswerDistinct; hide AnswerMissesPending; hide AnswersDistinct;
    PassExtends(p, eligible, call, n);
    TurnCleanIff(Pass(p, eligible, call, n).value, eligible[n], call);
    LaterTurnDistinct(p, eligible, call, n);
  }

  /**
   What the refresh asks of the histories it fetches, told on the loaded catalogue: none repeats a day that is
   not stored, and the first one has nothing on the day of a row that is still pending.
   */
  ghost predicate HistoriesClean(db: Db, call: Call)
    requires call.records.Some? && LoadedCatalogue(db, call).Ok?
  {
    var p := LoadedCatalogue(db, call).value;
    var selection := Selection(p, call);
    && AnswersDistinct(p.db, selection, call, |selection|)
    && (selection != [] ==> AnswerMissesPending(p, selection[0], call))
  }

  /** What is pending is what record r adds for its fund i: one row or none. */
  ghost predicate PendingOf(p: Progress, i: nat, r: FundRecord, now: int) {
    i < |p.db.funds| && p.db.funds[i] == FundFrom(r) && p.db.nav == p.flushed + RecordNavRows(p.flushed, i, r, now)
  }

  ghost predicate AtMostRowOf(p: Progress, r: FundRecord, now: int) { exists i: nat :: PendingOf(p, i, r, now) }

  /** The only row that can be pending then is that of the last catalogue record. */
  lemma PendingRow(db: Db, call: Call)
    requires call.records.Some? && LoadedCatalogue(db, call).Ok?
    ensures var p, records := LoadedCatalogue(db, call).value, call.records.value;
      if records == [] then p.flushed == p.db.nav
      else AtMostRowOf(p, records[|records| - 1], call.now)
  {
    var records := call.records.value;
    if records != [] {
      var n := |records| - 1;
      var before := Catalogue(db, records, call.now, call.catalogueFault, n).value.db;
      hide RecordNavRows; hide RecordMarketRows; hide FindFund; hide UniqueKeys; hide SourceAfter;
      var i := FundIndex(before.funds, records[n]);
      var p := LoadedCatalogue(db, call).value;
      assert Ok(p) == CatalogueStep(before, records[n], call.now);
      assert PendingOf(p, i, records[n], call.now);
    }
  }

  lemma WorkUniqueIff(db: Db, call: Call)
    requires Work(db, call).Ok?
    ensures call.records.Some? && LoadedCatalogue(db, call).Ok?
    ensures UniqueRows(Work(db, call).value.nav) <==>
      UniqueRows(db.nav) && (call.autoflush || HistoriesClean(db, call))
    ensures UniqueMarketRows(db.market) ==> UniqueMarketRows(Work(db, call).value.market)
  {
    hide Work; hide Pass; hide Selection; hide UniqueRows; hide UniqueMarketRows; hide TurnsClean;
    WorkParts(db, call);
    var records := call.records.value;
    CatalogueExtends(db, records, call.now, call.catalogueFault, |records|);
    CatalogueUnique(db, records, call.now, call.catalogueFault, |records|);
    hide Catalogue;
    var p := LoadedCatalogue(db, call).value;
    PassExtends(p, Selection(p, call), call, |Selection(p, call)|);
    PassUniqueIff(p, Selection(p, call), call, |Selection(p, call)|);
    TurnsCleanIff(p, Selection(p, call), call, |Selection(p, call)|);
    hide AnswersDistinct; hide AnswerMissesPending;
  }

  /** A refresh keeps rows unique exactly when it fails, flushes before queries, or gets only clean histories. */
  lemma RefreshUniqueIff(w: World, call: Call)
    ensures AfterRefresh(w, call).1.Some? || (call.records.Some? && LoadedCatalogue(StartedDb(w.db), call).Ok?)
    ensures UniqueRows(AfterRefresh(w, call).0.db.nav) <==>
      UniqueRows(w.db.nav)
      && (AfterRefresh(w, call).1.Some? || call.autoflush || HistoriesClean(StartedDb(w.db), call))
    ensures UniqueMarketRows(w.db.market) ==> UniqueMarketRows(AfterRefresh(w, call).0.db.market)
  {
    hide Work; hide UniqueRows; hide UniqueMarketRows; hide HistoriesClean; hide LoadedCatalogue;
    if Work(StartedDb(w.db), call).Ok? { WorkUniqueIff(StartedDb(w.db), call); }
  }

  /** Each fund has at most one NAV row and one market row a day, after any sequence of flushing refreshes. */
  lemma {:induction false} RowsStayUnique(w: World, calls: seq<Call>)
    requires UniqueRows(w.db.nav) && UniqueMarketRows(w.db.market)
    requires forall i :: 0 <= i < |calls| ==> calls[i].autoflush
    ensures UniqueRows(AfterRefreshes(w, calls).db.nav) && UniqueMarketRows(AfterRefreshes(w, calls).db.market)
  {
    if calls != [] {
      RowsStayUnique(w, calls[..|calls| - 1]);
      hide AfterRefresh; hide UniqueRows; hide UniqueMarketRows; hide HistoriesClean;
      RefreshUniqueIff(AfterRefreshes(w, calls[..|calls| - 1]), calls[|calls| - 1]);
    }
  }

  /**
   Without autoflush the last catalogue row is still pending when the first history is compared: one record whose
   history repeats the catalogue observation is stored twice.
   */
  lemma PendingCatalogueRowExample(r: FundRecord, x: Observation, now: int)
    requires r.nav.Some? && Day(x) == RecordDay(r, now)
    ensures var db := Db(map[], [], [], [], map[], []);
      var step := CatalogueStep(db, r, now);
      step.Ok? && |step.value.db.funds| == 1
      && !UniqueRows(step.value.db.nav + HistoryRows(step.value, 0, Some([x]), false))
  {
    var db := Db(map[], [], [], [], map[], []);
    assert FundIndex([], r) == 0;
    var p := CatalogueStep(db, r, now).value;
    assert p.db.nav[0].fundId == 0 && p.db.nav[0].day == Day(x);
    HistoryKeepsUniqueIff(p, 0, Some([x]), false);
    assert HasDay(p.db.nav, 0, Day([x][0])) && !HasDay(p.flushed, 0, Day([x][0]));
  }
}
