/**
 Idempotence of the refresh: a second identical refresh adds no fund, no NAV row and no market row, and leaves
 every metric as it was.
 */
module RefreshTwice {
  import opened Common
  import opened NavTable
  import opened Ordering
  import opened Refresh
  import opened RefreshRuns

  /** No two records of the catalogue can be taken for the same fund. */
  ghost predicate DistinctRecords(records: seq<FundRecord>) {
    forall i, j :: 0 <= i < j < |records| ==> DifferentFunds(records[i], records[j])
  }

  ghost predicate DifferentFunds(a: FundRecord, b: FundRecord) {
    && a.externalId != b.externalId
    && (a.symbol.Some? && b.symbol.Some? ==> a.symbol != b.symbol)
    && (a.name != b.name || a.fundType != b.fundType)
  }

  ghost predicate DatesPresent(records: seq<FundRecord>) {
    forall i :: 0 <= i < |records| ==> records[i].facts.observedAt.Some?
  }

  /** Nothing strikes, and the history pass is off or reaches every active fund. */
  ghost predicate Undisturbed(call: Call) {
    && call.records.Some? && call.runCommits && call.commits
    && call.catalogueFault.None? && call.historyFault.None?
    && (call.isHistorical && call.limit.Some? && call.limit.value > 0 ==>
          call.limit.value >= |ActiveRecords(call.records.value)|)
  }

  ghost predicate FetchesHistories(call: Call) {
    call.isHistorical && (call.limit.None? || call.limit.value > 0)
  }

  // ----- what a refresh leaves behind

  /** Record r is in the tables, as fund i. */
  ghost predicate LoadedAt(db: Db, r: FundRecord, now: int, i: nat) {
    && i < |db.funds| && db.funds[i] == FundFrom(r)
    && (r.nav.Some? ==> HasDay(db.nav, i, RecordDay(r, now)))
    && (HasQuote(r.quote) ==> HasMarketDay(db.market, i, RecordDay(r, now)))
  }

  /** The history of fund i is stored and its metrics are those of its rows. */
  ghost predicate HistoryStored(db: Db, r: FundRecord, call: Call, i: nat) {
    && i < |db.funds|
    && (call.histories(r.externalId).Some? ==>
          forall k :: 0 <= k < |call.histories(r.externalId).value| ==>
            HasDay(db.nav, i, Day(call.histories(r.externalId).value[k])))
    && RefreshedMetrics(db, i, call.analytics) == Ok(db.metrics)
  }

  ghost predicate RecordSettled(db: Db, r: FundRecord, call: Call) {
    exists i :: LoadedAt(db, r, call.now, i) && (FetchesHistories(call) && r.isActive ==> HistoryStored(db, r, call, i))
  }

  ghost predicate Settled(db: Db, call: Call)
    requires call.records.Some?
  {
    && UniqueKeys(db.funds)
    && forall k :: 0 <= k < |call.records.value| ==> RecordSettled(db, call.records.value[k], call)
  }

  lemma ExternalMatch(funds: seq<Fund>, id: string, i: nat)
    requires UniqueKeys(funds) && i < |funds| && funds[i].externalId == Some(id)
    ensures FirstMatch(funds, ByExternal(id)) == Some(i)
  {
    assert Matches(funds[i], ByExternal(id));
  }

  // ----- the catalogue, the first time

  ghost predicate Loaded(db: Db, r: FundRecord, now: int) { exists i :: LoadedAt(db, r, now, i) }

  /** A record never lands on the fund of another record of the same catalogue. */
  lemma LandsElsewhere(funds: seq<Fund>, r: FundRecord, other: FundRecord, i: nat)
    requires DifferentFunds(other, r) && i < |funds| && funds[i] == FundFrom(other)
    ensures FundIndex(funds, r) != i
  {
    hide FirstMatch;
    assert !Matches(funds[i], ByExternal(r.externalId));
    assert r.symbol.Some? ==> !Matches(funds[i], BySymbol(r.symbol.value));
    assert !Matches(funds[i], ByName(r.name, r.fundType));
  }

  lemma HasMarketDayGrows(rows: seq<MarketRow>, more: seq<MarketRow>, i: nat, day: int)
    requires HasMarketDay(rows, i, day)
    ensures HasMarketDay(rows + more, i, day)
  {
    var k :| 0 <= k < |rows| && rows[k].fundId == i && rows[k].day == day;
    assert (rows + more)[k] == rows[k];
  }

  lemma StepKeepsLoaded(db: Db, r: FundRecord, now: int, other: FundRecord, i: nat)
    requires CatalogueStep(db, r, now).Ok? && DifferentFunds(other, r) && LoadedAt(db, other, now, i)
    ensures LoadedAt(CatalogueStep(db, r, now).value.db, other, now, i)
  {
    LandsElsewhere(db.funds, r, other, i);
    hide FindFund; hide HasDay; hide HasMarketDay; hide RecordNavRows; hide RecordMarketRows; hide UniqueKeys;
    hide FundIndex;
    var q := FundIndex(db.funds, r);
    if other.nav.Some? { HasDayConcat(db.nav, RecordNavRows(db.nav, q, r, now), i, RecordDay(other, now)); }
    if HasQuote(other.quote) {
      HasMarketDayGrows(db.market, RecordMarketRows(db.market, q, r, now), i, RecordDay(other, now));
    }
  }

  lemma StepLoads(db: Db, r: FundRecord, now: int)
    requires CatalogueStep(db, r, now).Ok?
    ensures LoadedAt(CatalogueStep(db, r, now).value.db, r, now, FundIndex(db.funds, r))
    ensures UniqueKeys(CatalogueStep(db, r, now).value.db.funds)
  {
    var i, day := FundIndex(db.funds, r), RecordDay(r, now);
    var rows, market := RecordNavRows(db.nav, i, r, now), RecordMarketRows(db.market, i, r, now);
    hide FindFund; hide UniqueKeys; hide FundIndex;
    HasDayConcat(db.nav, rows, i, day);
    if r.nav.Some? && !HasDay(db.nav, i, day) { assert rows[0].fundId == i && rows[0].day == day; }
    if HasQuote(r.quote) {
      if HasMarketDay(db.market, i, day) {
        HasMarketDayGrows(db.market, market, i, day);
      } else {
        assert (db.market + market)[|db.market|] == market[0];
      }
    }
  }

  ghost predicate AllLoaded(db: Db, records: seq<FundRecord>, n: nat, now: int)
    requires n <= |records|
  {
    forall k :: 0 <= k < n ==> Loaded(db, records[k], now)
  }

  lemma LoadsOneMore(db: Db, records: seq<FundRecord>, now: int, n: nat)
    requires n < |records| && DistinctRecords(records) && AllLoaded(db, records, n, now)
    requires CatalogueStep(db, records[n], now).Ok?
    ensures UniqueKeys(CatalogueStep(db, records[n], now).value.db.funds)
    ensures AllLoaded(CatalogueStep(db, records[n], now).value.db, records, n + 1, now)
  {
    hide CatalogueStep; hide LoadedAt; hide UniqueKeys; hide DifferentFunds;
    StepLoads(db, records[n], now);
    forall k | 0 <= k < n ensures Loaded(CatalogueStep(db, records[n], now).value.db, records[k], now) {
      assert Loaded(db, records[k], now);
      var i :| LoadedAt(db, records[k], now, i);
      assert DifferentFunds(records[k], records[n]);
      StepKeepsLoaded(db, records[n], now, records[k], i);
    }
  }

  ghost predicate LoadedSoFar(p: Progress, records: seq<FundRecord>, n: nat, now: int)
    requires n <= |records|
  {
    UniqueKeys(p.db.funds) && AllLoaded(p.db, records, n, now)
  }

  lemma NextLoads(db: Db, records: seq<FundRecord>, now: int, fault: Option<nat>, n: nat)
    requires n < |records| && DistinctRecords(records)
    requires Catalogue(db, records, now, fault, n).Ok? && Catalogue(db, records, now, fault, n + 1).Ok?
    requires LoadedSoFar(Catalogue(db, records, now, fault, n).value, records, n, now)
    ensures LoadedSoFar(Catalogue(db, records, now, fault, n + 1).value, records, n + 1, now)
  {
    hide Catalogue; hide CatalogueStep; hide AllLoaded; hide DistinctRecords; hide UniqueKeys;
    NextRecord(db, records, now, fault, n);
    LoadsOneMore(Catalogue(db, records, now, fault, n).value.db, records, now, n);
  }

  lemma NothingLoaded(db: Db, records: seq<FundRecord>, now: int, fault: Option<nat>)
    requires UniqueKeys(db.funds)
    ensures Catalogue(db, records, now, fault, 0).Ok?
    ensures LoadedSoFar(Catalogue(db, records, now, fault, 0).value, records, 0, now)
  {
    hide UniqueKeys;
  }

  lemma {:induction false} CatalogueLoads(db: Db, records: seq<FundRecord>, now: int, fault: Option<nat>, n: nat)
    requires n <= |records| && DistinctRecords(records) && UniqueKeys(db.funds)
    requires Catalogue(db, records, now, fault, n).Ok?
    ensures LoadedSoFar(Catalogue(db, records, now, fault, n).value, records, n, now)
  {
    hide Catalogue; hide LoadedSoFar; hide DistinctRecords; hide UniqueKeys;
    if n == 0 {
      NothingLoaded(db, records, now, fault);
    } else {
      NextRecord(db, records, now, fault, n - 1);
      CatalogueLoads(db, records, now, fault, n - 1);
      NextLoads(db, records, now, fault, n - 1);
    }
  }

  // ----- the histories, the first time

  /** The turn of a fund stores every day of its history and brings its metrics up to date. */
  lemma TurnStores(p: Progress, r: FundRecord, call: Call)
    requires p.flushed <= p.db.nav && Turn(p, r, call).Ok?
    ensures FirstMatch(p.db.funds, ByExternal(r.externalId)).Some?
    ensures HistoryStored(Turn(p, r, call).value.db, r, call, FirstMatch(p.db.funds, ByExternal(r.externalId)).value)
  {
    var i := FirstMatch(p.db.funds, ByExternal(r.externalId)).value;
    var answer := call.histories(r.externalId);
    var rows := HistoryRows(p, i, answer, call.autoflush);
    if answer.Some? {
      forall k | 0 <= k < |answer.value| ensures HasDay(p.db.nav + rows, i, Day(answer.value[k])) {
        DayGetsStored(p, i, answer.value, call.autoflush, k);
      }
    }
    hide HistoryRows; hide HasDay;
    var db := p.db.(nav := p.db.nav + rows);
    MetricsSettle(db, i, call.analytics);
    hide RefreshedMetrics;
  }

  /** Computing the metrics again from the same rows changes nothing. */
  lemma MetricsSettle(db: Db, i: nat, analytics: Analytics)
    requires i < |db.funds| && RefreshedMetrics(db, i, analytics).Ok?
    ensures var metrics := RefreshedMetrics(db, i, analytics).value;
      RefreshedMetrics(db.(metrics := metrics), i, analytics) == Ok(metrics)
  {
    hide RowsOf; hide LatestRow;
    var metrics := RefreshedMetrics(db, i, analytics).value;
    assert i in metrics ==> metrics[i := metrics[i]] == metrics;
  }

  /** Work on another fund keeps what is stored and the metrics. */
  lemma TurnKeepsStored(p: Progress, r: FundRecord, call: Call, other: FundRecord, i: nat)
    requires Turn(p, r, call).Ok? && HistoryStored(p.db, other, call, i)
    requires FirstMatch(p.db.funds, ByExternal(r.externalId)) != Some(i)
    ensures HistoryStored(Turn(p, r, call).value.db, other, call, i)
  {
    var q := FirstMatch(p.db.funds, ByExternal(r.externalId)).value;
    var rows := HistoryRows(p, q, call.histories(r.externalId), call.autoflush);
    var after := Turn(p, r, call).value.db;
    assert after.nav == p.db.nav + rows && after.funds == p.db.funds;
    RowsOfConcat(p.db.nav, rows, i);
    RowsOfOwn(rows, q, i);
    hide HistoryRows; hide HasDay;
    assert RowsOf(after.nav, i) == RowsOf(p.db.nav, i);
    MetricsOfOthers(p.db, after, q, i, call.analytics, rows);
    hide Turn; hide RowsOf; hide RefreshedMetrics;
    var answer := call.histories(other.externalId);
    if answer.Some? {
      forall k | 0 <= k < |answer.value| ensures HasDay(after.nav, i, Day(answer.value[k])) {
        HasDayConcat(p.db.nav, rows, i, Day(answer.value[k]));
      }
    }
  }

  lemma MetricsOfOthers(before: Db, after: Db, q: nat, i: nat, analytics: Analytics, rows: seq<NavRow>)
    requires i < |before.funds| && q < |before.funds| && i != q && after.funds == before.funds
    requires RowsOf(after.nav, i) == RowsOf(before.nav, i)
    requires RefreshedMetrics(before, i, analytics) == Ok(before.metrics)
    requires RefreshedMetrics(before.(nav := before.nav + rows), q, analytics) == Ok(after.metrics)
    ensures RefreshedMetrics(after, i, analytics) == Ok(after.metrics)
  {
    hide RowsOf; hide LatestRow;
    if |RowsOf(after.nav, i)| >= 2 {
      var own := before.metrics[i := Metrics(analytics(RowsOf(before.nav, i)).value, before.funds[i].source,
                                             LatestRow(RowsOf(before.nav, i)), before.funds[i].quality)];
      assert own == before.metrics;
      assert i in before.metrics && before.metrics[i] == own[i];
      assert after.metrics[i] == own[i];
      assert after.metrics[i := own[i]] == after.metrics;
    }
  }

  ghost predicate DistinctIds(s: seq<FundRecord>) {
    forall i, j :: 0 <= i < j < |s| ==> s[i].externalId != s[j].externalId
  }

  ghost predicate StoredFor(db: Db, r: FundRecord, call: Call) {
    var found := FirstMatch(db.funds, ByExternal(r.externalId));
    found.Some? && HistoryStored(db, r, call, found.value)
  }

  ghost predicate AllStored(db: Db, selection: seq<FundRecord>, n: nat, call: Call)
    requires n <= |selection|
  {
    forall k :: 0 <= k < n ==> StoredFor(db, selection[k], call)
  }

  lemma {:induction false} PassStores(p: Progress, selection: seq<FundRecord>, call: Call, n: nat)
    requires n <= |selection| && p.flushed <= p.db.nav && DistinctIds(selection) && Pass(p, selection, call, n).Ok?
    ensures AllStored(Pass(p, selection, call, n).value.db, selection, n, call)
  {
    if n == 0 { return; }
    hide Pass; hide Turn; hide StoredFor; hide DistinctIds; hide AllStored;
    PassStep(p, selection, call, n - 1);
    PassStores(p, selection, call, n - 1);
    NextStores(p, selection, call, n - 1);
  }

  lemma NextStores(p: Progress, selection: seq<FundRecord>, call: Call, n: nat)
    requires n < |selection| && p.flushed <= p.db.nav && DistinctIds(selection)
    requires Pass(p, selection, call, n + 1).Ok? && Pass(p, selection, call, n).Ok?
    requires AllStored(Pass(p, selection, call, n).value.db, selection, n, call)
    ensures AllStored(Pass(p, selection, call, n + 1).value.db, selection, n + 1, call)
  {
    hide Pass; hide Turn; hide StoredFor; hide DistinctIds; hide AllStored;
    PassExtends(p, selection, call, n);
    PassStep(p, selection, call, n);
    StoresOneMore(Pass(p, selection, call, n).value, selection, call, n);
  }

  lemma StoresOneMore(p: Progress, selection: seq<FundRecord>, call: Call, n: nat)
    requires n < |selection| && p.flushed <= p.db.nav && DistinctIds(selection)
    requires AllStored(p.db, selection, n, call) && Turn(p, selection[n], call).Ok?
    ensures AllStored(Turn(p, selection[n], call).value.db, selection, n + 1, call)
  {
    hide Turn; hide StoredFor;
    TurnStoresOwn(p, selection[n], call);
    forall k | 0 <= k < n ensures StoredFor(Turn(p, selection[n], call).value.db, selection[k], call) {
      TurnKeepsOther(p, selection[n], call, selection[k]);
    }
  }

  lemma TurnStoresOwn(p: Progress, r: FundRecord, call: Call)
    requires p.flushed <= p.db.nav && Turn(p, r, call).Ok?
    ensures StoredFor(Turn(p, r, call).value.db, r, call)
  {
    hide HistoryStored; hide FirstMatch;
    TurnStores(p, r, call);
    TurnExtends(p, r, call);
  }

  lemma TurnKeepsOther(p: Progress, r: FundRecord, call: Call, other: FundRecord)
    requires Turn(p, r, call).Ok? && StoredFor(p.db, other, call) && other.externalId != r.externalId
    ensures StoredFor(Turn(p, r, call).value.db, other, call)
  {
    hide HistoryStored;
    OtherFund(p.db.funds, other.externalId, r.externalId);
    hide FirstMatch;
    TurnExtends(p, r, call);
    TurnKeepsStored(p, r, call, other, FirstMatch(p.db.funds, ByExternal(other.externalId)).value);
  }

  // ----- the selection reaches every active record

  lemma {:induction false} ActiveRecordsAre(records: seq<FundRecord>)
    ensures forall x :: x in ActiveRecords(records) <==> x in records && x.isActive
    ensures |ActiveRecords(records)| <= |records|
    ensures DistinctIds(records) ==> DistinctIds(ActiveRecords(records))
  {
    if records != [] {
      var rest, last := records[..|records| - 1], records[|records| - 1];
      ActiveRecordsAre(rest);
      assert records == rest + [last];
      if DistinctIds(records) {
        forall i | 0 <= i < |rest| ensures rest[i].externalId != last.externalId {
          assert records[i] == rest[i];
        }
        assert forall x :: x in rest ==> x.externalId != last.externalId;
      }
    }
  }

  lemma SameElementsDistinct(s: seq<FundRecord>, t: seq<FundRecord>)
    requires multiset(s) == multiset(t) && DistinctIds(t)
    ensures DistinctIds(s)
  {
    forall i, j | 0 <= i < j < |s| ensures s[i].externalId != s[j].externalId {
      if s[i].externalId == s[j].externalId {
        assert s[i] in multiset(t) && s[j] in multiset(t);
        assert s[i] == s[j];
        TwiceInside(s, i, j);
        TwiceOutside(t, s[i]);
      }
    }
  }

  lemma TwiceInside(s: seq<FundRecord>, i: nat, j: nat)
    requires i < j < |s| && s[i] == s[j]
    ensures multiset(s)[s[i]] >= 2
  {
    assert s == s[..j] + [s[j]] + s[j + 1..];
    assert s[i] in s[..j];
  }

  lemma TwiceOutside(t: seq<FundRecord>, x: FundRecord)
    requires multiset(t)[x] >= 2
    ensures !DistinctIds(t)
  {
    assert x in t;
    var a :| 0 <= a < |t| && t[a] == x;
    assert t == t[..a] + [x] + t[a + 1..];
    assert multiset(t) == multiset(t[..a]) + multiset{x} + multiset(t[a + 1..]);
    assert x in t[..a] || x in t[a + 1..];
  }

  lemma SelectionReaches(p: Progress, call: Call)
    requires Undisturbed(call) && DistinctIds(call.records.value)
    ensures DistinctIds(Selection(p, call))
    ensures forall x :: x in Selection(p, call) ==> x in call.records.value && x.isActive
    ensures FetchesHistories(call) ==>
      forall x :: x in call.records.value && x.isActive ==> x in Selection(p, call)
    ensures !FetchesHistories(call) ==> Selection(p, call) == []
  {
    var records := call.records.value;
    ActiveRecordsAre(records);
    hide ActiveRecords; hide StableSort;
    if call.isHistorical {
      var sorted := StableSort(ActiveRecords(records), ByNeed(p, call.autoflush));
      SameElementsDistinct(sorted, ActiveRecords(records));
      assert |multiset(sorted)| == |sorted| && |multiset(ActiveRecords(records))| == |ActiveRecords(records)|;
      forall x ensures x in sorted <==> x in ActiveRecords(records) {
        assert x in sorted <==> x in multiset(sorted);
        assert x in ActiveRecords(records) <==> x in multiset(ActiveRecords(records));
      }
      if FetchesHistories(call) { assert Selection(p, call) == sorted; }
    }
  }

  // ----- the first refresh settles the tables

  lemma LoadedSurvivesPass(p: Progress, q: Progress, r: FundRecord, now: int)
    requires Loaded(p.db, r, now) && Extends(p.db, q.db) && q.db.funds == p.db.funds && q.db.market == p.db.market
    ensures exists i :: LoadedAt(q.db, r, now, i) && LoadedAt(p.db, r, now, i)
  {
    var i :| LoadedAt(p.db, r, now, i);
    if r.nav.Some? { HasDayPrefix(p.db.nav, q.db.nav, i, RecordDay(r, now)); }
    assert LoadedAt(q.db, r, now, i);
  }

  lemma FirstRefreshSettles(db: Db, call: Call)
    requires UniqueKeys(db.funds) && Undisturbed(call) && DistinctRecords(call.records.value)
    requires Work(db, call).Ok?
    ensures Settled(Work(db, call).value, call)
  {
    hide Work; hide Pass; hide UniqueKeys;
    WorkParts(db, call);
    var records := call.records.value;
    CatalogueLoads(db, records, call.now, call.catalogueFault, |records|);
    CatalogueExtends(db, records, call.now, call.catalogueFault, |records|);
    hide Catalogue;
    var p := LoadedCatalogue(db, call).value;
    var selection := Selection(p, call);
    IdsDistinct(records);
    SelectionReaches(p, call);
    hide Selection;
    PassExtends(p, selection, call, |selection|);
    PassStores(p, selection, call, |selection|);
    var q := Pass(p, selection, call, |selection|).value;
    hide StoredFor; hide LoadedAt;
    forall k | 0 <= k < |records| ensures RecordSettled(q.db, records[k], call) {
      RecordSettles(p, q, selection, call, records[k]);
    }
  }

  lemma RecordSettles(p: Progress, q: Progress, selection: seq<FundRecord>, call: Call, r: FundRecord)
    requires Loaded(p.db, r, call.now) && Extends(p.db, q.db) && q.db.funds == p.db.funds && q.db.market == p.db.market
    requires UniqueKeys(q.db.funds)
    requires FetchesHistories(call) && r.isActive ==> r in selection
    requires forall k :: 0 <= k < |selection| ==> StoredFor(q.db, selection[k], call)
    ensures RecordSettled(q.db, r, call)
  {
    hide HistoryStored; hide UniqueKeys;
    LoadedSurvivesPass(p, q, r, call.now);
    var i :| LoadedAt(q.db, r, call.now, i);
    if FetchesHistories(call) && r.isActive {
      var k :| 0 <= k < |selection| && selection[k] == r;
      assert StoredFor(q.db, selection[k], call);
      ExternalMatch(q.db.funds, r.externalId, i);
    }
  }

  lemma IdsDistinct(records: seq<FundRecord>)
    requires DistinctRecords(records)
    ensures DistinctIds(records)
  {
    forall i, j | 0 <= i < j < |records| ensures records[i].externalId != records[j].externalId {
      assert DifferentFunds(records[i], records[j]);
    }
  }

  // ----- the second refresh finds everything settled

  /** A settled record changes no table: its fund is found by external id and rewritten with the same values. */
  lemma SettledStep(db: Db, r: FundRecord, now: int, i: nat)
    requires UniqueKeys(db.funds) && LoadedAt(db, r, now, i)
    ensures CatalogueStep(db, r, now) == Ok(Progress(db.(sources := SourceAfter(db.sources, r)), db.nav))
  {
    ExternalMatch(db.funds, r.externalId, i);
    hide UniqueKeys; hide HasDay; hide HasMarketDay; hide SourceAfter; hide FirstMatch;
    assert FundIndex(db.funds, r) == i;
    assert db.funds[i := FundFrom(r)] == db.funds;
    assert db.nav + [] == db.nav && db.market + [] == db.market;
  }

  /** The tables of the first refresh, whatever happened to the source counters. */
  ghost predicate SameButSources(a: Db, b: Db) {
    a.funds == b.funds && a.nav == b.nav && a.market == b.market && a.metrics == b.metrics
  }

  /** The tables are those of db, all of them flushed. */
  ghost predicate Unmoved(p: Progress, db: Db) { SameButSources(p.db, db) && p.flushed == db.nav }

  lemma NextSettled(db: Db, call: Call, n: nat)
    requires call.records.Some? && n < |call.records.value| && call.catalogueFault.None? && Settled(db, call)
    requires var c := Catalogue(db, call.records.value, call.now, call.catalogueFault, n);
      c.Ok? && Unmoved(c.value, db)
    ensures var c := Catalogue(db, call.records.value, call.now, call.catalogueFault, n + 1);
      c.Ok? && Unmoved(c.value, db)
  {
    var records := call.records.value;
    assert RecordSettled(db, records[n], call);
    hide Catalogue; hide CatalogueStep; hide RecordSettled; hide UniqueKeys; hide SameButSources;
    NextRecord(db, records, call.now, call.catalogueFault, n);
    SettledRecord(db, Catalogue(db, records, call.now, call.catalogueFault, n).value.db, records[n], call);
  }

  lemma NothingMoved(db: Db, records: seq<FundRecord>, now: int, fault: Option<nat>)
    ensures var c := Catalogue(db, records, now, fault, 0); c.Ok? && Unmoved(c.value, db)
  {}

  lemma {:induction false} SettledCatalogue(db: Db, call: Call, n: nat)
    requires call.records.Some? && n <= |call.records.value| && call.catalogueFault.None?
    requires Settled(db, call)
    ensures var c := Catalogue(db, call.records.value, call.now, call.catalogueFault, n);
      c.Ok? && Unmoved(c.value, db)
  {
    hide Catalogue; hide Unmoved; hide Settled;
    if n == 0 {
      NothingMoved(db, call.records.value, call.now, call.catalogueFault);
    } else {
      SettledCatalogue(db, call, n - 1);
      NextSettled(db, call, n - 1);
    }
  }

  lemma SettledRecord(db: Db, before: Db, r: FundRecord, call: Call)
    requires SameButSources(before, db) && UniqueKeys(db.funds) && RecordSettled(db, r, call)
    ensures var step := CatalogueStep(before, r, call.now);
      step.Ok? && SameButSources(step.value.db, db) && step.value.flushed == db.nav
  {
    hide UniqueKeys; hide LoadedAt; hide HistoryStored; hide CatalogueStep;
    var i :| LoadedAt(db, r, call.now, i);
    LoadedReadsTables(db, before, r, call.now, i);
    SettledStep(before, r, call.now, i);
  }

  lemma LoadedReadsTables(a: Db, b: Db, r: FundRecord, now: int, i: nat)
    requires SameButSources(a, b) && LoadedAt(a, r, now, i)
    ensures LoadedAt(b, r, now, i)
  {}

  lemma StoredReadsTables(a: Db, b: Db, r: FundRecord, call: Call, i: nat)
    requires SameButSources(a, b) && HistoryStored(a, r, call, i)
    ensures HistoryStored(b, r, call, i)
  {}

  lemma {:induction false} NothingNew(o: Owner, history: seq<Observation>, stored: seq<NavRow>, autoflush: bool)
    requires forall k :: 0 <= k < |history| ==> HasDay(stored, o.id, Day(history[k]))
    ensures NewRows(o, history, stored, None, None, autoflush) == []
  {
    if history != [] {
      NothingNew(o, history[..|history| - 1], stored, autoflush);
      assert HasDay(stored, o.id, Day(history[|history| - 1]));
    }
  }

  lemma SettledTurn(p: Progress, r: FundRecord, call: Call, i: nat)
    requires FirstMatch(p.db.funds, ByExternal(r.externalId)) == Some(i)
    requires p.flushed == p.db.nav && HistoryStored(p.db, r, call, i)
    ensures Turn(p, r, call) == Ok(p)
  {
    var answer := call.histories(r.externalId);
    assert HistoryRows(p, i, answer, call.autoflush) == [] by {
      if answer.Some? { NothingNew(Owner(i, p.db.funds[i].source, true), answer.value, p.db.nav, call.autoflush); }
    }
    hide HistoryRows; hide RefreshedMetrics;
    assert p.db.nav + [] == p.db.nav;
    assert p.db.(nav := p.db.nav) == p.db && p.db.(metrics := p.db.metrics) == p.db;
  }

  lemma {:induction false} SettledPass(p: Progress, selection: seq<FundRecord>, call: Call, n: nat)
    requires n <= |selection| && p.flushed == p.db.nav && call.historyFault.None? && call.records.Some?
    requires Settled(p.db, call) && FetchesHistories(call)
    requires forall x :: x in selection ==> x in call.records.value && x.isActive
    ensures Pass(p, selection, call, n) == Ok(p)
  {
    if n > 0 {
      hide Turn; hide UniqueKeys; hide RecordSettled; hide FetchesHistories;
      SettledPass(p, selection, call, n - 1);
      var r := selection[n - 1];
      assert r in selection;
      SettledRecordTurn(p, r, call);
    }
  }

  lemma SettledRecordTurn(p: Progress, r: FundRecord, call: Call)
    requires p.flushed == p.db.nav && call.records.Some? && r in call.records.value && r.isActive
    requires Settled(p.db, call) && FetchesHistories(call)
    ensures Turn(p, r, call) == Ok(p)
  {
    hide UniqueKeys; hide LoadedAt; hide HistoryStored; hide Turn; hide FirstMatch;
    var k :| 0 <= k < |call.records.value| && call.records.value[k] == r;
    assert RecordSettled(p.db, r, call);
    var i :| LoadedAt(p.db, r, call.now, i) && HistoryStored(p.db, r, call, i);
    LoadedExternal(p.db, r, call.now, i);
    SettledTurn(p, r, call, i);
  }

  lemma LoadedExternal(db: Db, r: FundRecord, now: int, i: nat)
    requires UniqueKeys(db.funds) && LoadedAt(db, r, now, i)
    ensures FirstMatch(db.funds, ByExternal(r.externalId)) == Some(i)
  {
    ExternalMatch(db.funds, r.externalId, i);
  }

  lemma SettledReadsTables(a: Db, b: Db, call: Call)
    requires call.records.Some? && SameButSources(a, b) && Settled(a, call)
    ensures Settled(b, call)
  {
    hide UniqueKeys; hide LoadedAt; hide HistoryStored;
    forall k | 0 <= k < |call.records.value| ensures RecordSettled(b, call.records.value[k], call) {
      var r := call.records.value[k];
      assert RecordSettled(a, r, call);
      var i :| LoadedAt(a, r, call.now, i) && (FetchesHistories(call) && r.isActive ==> HistoryStored(a, r, call, i));
      LoadedReadsTables(a, b, r, call.now, i);
      if FetchesHistories(call) && r.isActive { StoredReadsTables(a, b, r, call, i); }
    }
  }

  lemma SettledWork(db: Db, call: Call)
    requires Undisturbed(call) && DistinctRecords(call.records.value) && Settled(db, call)
    ensures Work(db, call).Ok? && SameButSources(Work(db, call).value, db)
  {
    var records := call.records.value;
    SettledCatalogue(db, call, |records|);
    var p := Catalogue(db, records, call.now, call.catalogueFault, |records|).value;
    SettledReadsTables(db, p.db, call);
    IdsDistinct(records);
    SelectionReaches(p, call);
    hide Settled; hide Catalogue; hide EligibleRecords;
    if FetchesHistories(call) {
      SettledPass(p, Selection(p, call), call, |Selection(p, call)|);
    }
    hide DistinctRecords;
  }

  /** With all observation dates present the clock does not matter. */
  lemma SettledAtAnyTime(db: Db, call: Call, now: int)
    requires call.records.Some? && DatesPresent(call.records.value) && Settled(db, call)
    ensures Settled(db, call.(now := now))
  {
    var later := call.(now := now);
    hide UniqueKeys; hide HasDay; hide HasMarketDay; hide RefreshedMetrics;
    forall k | 0 <= k < |call.records.value| ensures RecordSettled(db, call.records.value[k], later) {
      var r := call.records.value[k];
      assert RecordSettled(db, r, call);
      var i :| LoadedAt(db, r, call.now, i) && (FetchesHistories(call) && r.isActive ==> HistoryStored(db, r, call, i));
      assert RecordDay(r, now) == RecordDay(r, call.now);
      assert LoadedAt(db, r, now, i);
      if FetchesHistories(call) && r.isActive { assert HistoryStored(db, r, later, i); }
    }
  }

  /**
   Idempotence. For a catalogue whose records cannot be confused, with all dates present and every active fund's
   history fetched or none, a second refresh at any time succeeds and leaves funds, NAV rows, market rows and
   metrics exactly as the first one left them, with or without autoflush.
   */
  lemma SecondRefreshChangesNothing(w: World, call: Call, now: int)
    requires UniqueKeys(w.db.funds) && Undisturbed(call)
    requires DistinctRecords(call.records.value) && DatesPresent(call.records.value)
    requires AfterRefresh(w, call).1.None?
    ensures var once := AfterRefresh(w, call).0;
      var twice := AfterRefresh(once, call.(now := now));
      twice.1.None? && SameButSources(twice.0.db, once.db)
  {
    var started := StartedDb(w.db);
    hide Work; hide UniqueKeys; hide Settled; hide DistinctRecords; hide DatesPresent;
    FirstRefreshSettles(started, call);
    var once := AfterRefresh(w, call).0;
    SettledReadsTables(Work(started, call).value, StartedDb(once.db), call);
    SettledAtAnyTime(StartedDb(once.db), call, now);
    SettledWork(StartedDb(once.db), call.(now := now));
  }

  // ----- the counters that do grow

  function Occurrences(records: seq<FundRecord>, source: string, n: nat): nat
    requires n <= |records|
  {
    if n == 0 then 0 else Occurrences(records, source, n - 1) + if records[n - 1].sourceName == source then 1 else 0
  }

  function CountOf(sources: map<string, Source>, source: string): nat {
    if source in sources then sources[source].recordCount else 0
  }

  /** A loaded catalogue adds to each source's counter the number of its records. */
  lemma {:induction false} CountersGrow(db: Db, records: seq<FundRecord>, now: int, fault: Option<nat>, n: nat,
                                        source: string)
    requires n <= |records| && Catalogue(db, records, now, fault, n).Ok?
    ensures CountOf(Catalogue(db, records, now, fault, n).value.db.sources, source)
      == CountOf(db.sources, source) + Occurrences(records, source, n)
  {
    if n > 0 {
      CountersGrow(db, records, now, fault, n - 1, source);
      hide Upserted; hide UniqueKeys; hide RecordNavRows; hide RecordMarketRows;
    }
  }

  /** The record counters are the one thing a repeated refresh does change: by the number of records, every time. */
  lemma RefreshCountsRecords(w: World, call: Call, source: string)
    requires AfterRefresh(w, call).1.None?
    ensures call.records.Some?
    ensures CountOf(AfterRefresh(w, call).0.db.sources, source)
      == CountOf(w.db.sources, source) + Occurrences(call.records.value, source, |call.records.value|)
  {
    var started := StartedDb(w.db);
    hide Work; hide Pass; hide Selection;
    WorkParts(started, call);
    var records := call.records.value;
    CatalogueExtends(started, records, call.now, call.catalogueFault, |records|);
    CountersGrow(started, records, call.now, call.catalogueFault, |records|, source);
    hide Catalogue;
    var p := LoadedCatalogue(started, call).value;
    PassExtends(p, Selection(p, call), call, |Selection(p, call)|);
  }
}
