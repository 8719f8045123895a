/**
 The fund refresh: a lock, an upsert of the catalogue, a selection of funds whose history is fetched, and one
 commit at the end. Funds are identified by their position in the fund table, which nothing deletes from.
 */
module Refresh {
  import opened Common
  import opened NavTable
  import opened Ordering

  datatype Quote = Quote(price: Option<real>, volume: Option<real>, value: Option<real>)

  /** The facts about a source that every record of it overwrites. */
  datatype SourceFacts = SourceFacts(
    quality: string, fetchedAt: int, observedAt: Option<Moment>, version: Option<string>, hash: Option<string>)

  datatype FundRecord = FundRecord(
    externalId: string, symbol: Option<string>, name: string, fundType: string, isActive: bool,
    details: string, nav: Option<real>, netAssets: Option<real>, quote: Quote, sourceName: string,
    facts: SourceFacts)

  datatype Fund = Fund(
    externalId: Option<string>, symbol: Option<string>, name: string, fundType: string, isActive: bool,
    details: string, source: Option<string>, quality: string, lastDataAt: Option<Moment>)

  datatype Source = Source(facts: SourceFacts, recordCount: nat)

  datatype MarketRow = MarketRow(
    fundId: nat, day: int, observedAt: Moment, quote: Quote, source: string, quality: string)

  /** The metrics of one fund, all written at once. */
  datatype Metrics = Metrics(
    values: map<string, Option<real>>, source: Option<string>, lastRow: NavRow, quality: string)

  datatype RunStatus = Running | Success | Error

  datatype IngestionRun = IngestionRun(status: RunStatus, received: nat, written: nat)

  datatype Db = Db(
    sources: map<string, Source>, funds: seq<Fund>, nav: seq<NavRow>, market: seq<MarketRow>,
    metrics: map<nat, Metrics>, runs: seq<IngestionRun>)

  datatype RefreshError = AlreadyRunning | CommitFailed | FetchFailed | Integrity | MissingFund | BadMetrics | Fault

  // ----- finding the fund of a record

  datatype Key = ByExternal(id: string) | BySymbol(symbol: string) | ByName(name: string, fundType: string)

  predicate Matches(f: Fund, key: Key) {
    match key
    case ByExternal(id) => f.externalId == Some(id)
    case BySymbol(symbol) => f.symbol == Some(symbol)
    case ByName(name, fundType) => f.name == name && f.fundType == fundType
  }

  /** The first fund a query returns; without an order the table order stands. */
  function FirstMatch(funds: seq<Fund>, key: Key): (r: Option<nat>)
    ensures r.Some? ==> r.value < |funds| && Matches(funds[r.value], key)
    ensures r.Some? ==> forall j :: 0 <= j < r.value ==> !Matches(funds[j], key)
    ensures r.None? ==> forall j :: 0 <= j < |funds| ==> !Matches(funds[j], key)
  {
    if funds == [] then None
    else
      var earlier := FirstMatch(funds[..|funds| - 1], key);
      if earlier.Some? then earlier
      else if Matches(funds[|funds| - 1], key) then Some(|funds| - 1)
      else None
  }

  /** External id first, then a non-empty symbol, then name and type. */
  function FindFund(funds: seq<Fund>, r: FundRecord): Option<nat> {
    var byId := FirstMatch(funds, ByExternal(r.externalId));
    if byId.Some? then byId
    else
      var bySymbol :=
        if r.symbol.Some? && r.symbol.value != "" then FirstMatch(funds, BySymbol(r.symbol.value)) else None;
      if bySymbol.Some? then bySymbol else FirstMatch(funds, ByName(r.name, r.fundType))
  }

  function FundFrom(r: FundRecord): Fund {
    Fund(Some(r.externalId), r.symbol, r.name, r.fundType, r.isActive, r.details, Some(r.sourceName),
         r.facts.quality, r.facts.observedAt)
  }

  function FundIndex(funds: seq<Fund>, r: FundRecord): (i: nat)
    ensures i <= |funds|
  {
    var found := FindFund(funds, r);
    if found.Some? then found.value else |funds|
  }

  function Upserted(funds: seq<Fund>, r: FundRecord): (after: seq<Fund>)
    ensures |funds| <= |after| && FundIndex(funds, r) < |after|
  {
    var i := FundIndex(funds, r);
    if i < |funds| then funds[i := FundFrom(r)] else funds + [FundFrom(r)]
  }

  /** The unique constraints on external id and symbol. */
  predicate UniqueKeys(funds: seq<Fund>) {
    && (forall i, j :: 0 <= i < j < |funds| && funds[i].externalId.Some? ==> funds[i].externalId != funds[j].externalId)
    && (forall i, j :: 0 <= i < j < |funds| && funds[i].symbol.Some? ==> funds[i].symbol != funds[j].symbol)
  }

  // ----- one catalogue record

  function SourceAfter(sources: map<string, Source>, r: FundRecord): map<string, Source> {
    var count := if r.sourceName in sources then sources[r.sourceName].recordCount else 0;
    sources[r.sourceName := Source(r.facts, count + 1)]
  }

  /** A record without a moment of its own counts as observed now, on the UTC clock. */
  function ObservedAt(r: FundRecord, now: int): Moment {
    if r.facts.observedAt.Some? then r.facts.observedAt.value else Moment(now, 0)
  }

  function RecordDay(r: FundRecord, now: int): int { DayOf(ObservedAt(r, now)) }

  predicate HasMarketDay(rows: seq<MarketRow>, fundId: nat, day: int) {
    exists i :: 0 <= i < |rows| && rows[i].fundId == fundId && rows[i].day == day
  }

  function RecordNavRows(nav: seq<NavRow>, fundId: nat, r: FundRecord, now: int): seq<NavRow> {
    if r.nav.Some? && !HasDay(nav, fundId, RecordDay(r, now))
    then [NavRow(fundId, RecordDay(r, now), ObservedAt(r, now), r.nav.value, r.netAssets, Some(r.sourceName),
                 r.facts.quality)]
    else []
  }

  predicate HasQuote(q: Quote) { q.price.Some? || q.volume.Some? || q.value.Some? }

  function RecordMarketRows(market: seq<MarketRow>, fundId: nat, r: FundRecord, now: int): seq<MarketRow> {
    if HasQuote(r.quote) && !HasMarketDay(market, fundId, RecordDay(r, now))
    then [MarketRow(fundId, RecordDay(r, now), ObservedAt(r, now), r.quote, r.sourceName, r.facts.quality)]
    else []
  }

  /**
   The working tables after one record, and the NAV rows a query without autoflush sees from then on: the
   record's own row is added after the record's last flush.
   */
  datatype Progress = Progress(db: Db, flushed: seq<NavRow>)

  function CatalogueStep(db: Db, r: FundRecord, now: int): Result<Progress, RefreshError> {
    var funds, i := Upserted(db.funds, r), FundIndex(db.funds, r);
    if !UniqueKeys(funds) then Err(Integrity)
    else
      Ok(Progress(
           db.(sources := SourceAfter(db.sources, r),
               funds := funds,
               nav := db.nav + RecordNavRows(db.nav, i, r, now),
               market := db.market + RecordMarketRows(db.market, i, r, now)),
           db.nav))
  }

  /** The catalogue loop over the first n records; a fault may strike before record k. */
  function Catalogue(db: Db, records: seq<FundRecord>, now: int, fault: Option<nat>,
                     n: nat): Result<Progress, RefreshError>
    requires n <= |records|
  {
    if n == 0 then Ok(Progress(db, db.nav))
    else
      match Catalogue(db, records, now, fault, n - 1)
      case Err(e) => Err(e)
      case Ok(p) => if fault == Some(n - 1) then Err(Fault) else CatalogueStep(p.db, records[n - 1], now)
  }

  // ----- which funds get their history fetched

  function CountRows(nav: seq<NavRow>, fundId: nat): nat { |RowsOf(nav, fundId)| }

  /** The stored rows of the fund a record names; a fund that lost its external id counts as empty. */
  function HistoryCount(p: Progress, r: FundRecord, autoflush: bool): nat {
    var found := FirstMatch(p.db.funds, ByExternal(r.externalId));
    if found.None? then 0 else CountRows(if autoflush then p.db.nav else p.flushed, found.value)
  }

  /** The sort key order: fewer rows first, then external id. */
  predicate NeedsMore(p: Progress, autoflush: bool, a: FundRecord, b: FundRecord) {
    var x, y := HistoryCount(p, a, autoflush), HistoryCount(p, b, autoflush);
    x < y || (x == y && LexLe(a.externalId, b.externalId))
  }

  function ByNeed(p: Progress, autoflush: bool): (FundRecord, FundRecord) -> bool {
    (a, b) => NeedsMore(p, autoflush, a, b)
  }

  function ActiveRecords(records: seq<FundRecord>): seq<FundRecord> {
    if records == [] then []
    else
      var rest, last := ActiveRecords(records[..|records| - 1]), records[|records| - 1];
      if last.isActive then rest + [last] else rest
  }

  function EligibleRecords(p: Progress, autoflush: bool, records: seq<FundRecord>,
                           limit: Option<int>): seq<FundRecord> {
    var sorted := StableSort(ActiveRecords(records), ByNeed(p, autoflush));
    if limit.None? then sorted
    else if limit.value <= 0 then []
    else sorted[..MinInt(limit.value, |sorted|)]
  }

  // ----- the history of one fund

  /** What the upstream answers for a fund: nothing when every attempt failed. */
  type Histories = string -> Option<seq<Observation>>

  /** The analytics of a fund's rows; None when they refuse the values. */
  type Analytics = seq<NavRow> -> Option<map<string, Option<real>>>

  function RefreshedMetrics(db: Db, i: nat, analytics: Analytics): Result<map<nat, Metrics>, RefreshError>
    requires i < |db.funds|
  {
    var rows := RowsOf(db.nav, i);
    if |rows| < 2 then Ok(db.metrics)
    else
      match analytics(rows)
      case None => Err(BadMetrics)
      case Some(values) =>
        Ok(db.metrics[i := Metrics(values, db.funds[i].source, LatestRow(rows), db.funds[i].quality)])
  }

  /** The last row in date order; among equal days the one stored last. */
  function LatestRow(rows: seq<NavRow>): NavRow
    requires rows != []
  {
    if |rows| == 1 then rows[0]
    else
      var best := LatestRow(rows[..|rows| - 1]);
      if rows[|rows| - 1].day >= best.day then rows[|rows| - 1] else best
  }

  function HistoryRows(p: Progress, i: nat, answer: Option<seq<Observation>>, autoflush: bool): seq<NavRow>
    requires i < |p.db.funds|
  {
    if answer.None? then []
    else
      NewRows(Owner(i, p.db.funds[i].source, true), answer.value,
              if autoflush then p.db.nav else p.flushed, None, None, autoflush)
  }

  function HistoryStep(p: Progress, r: FundRecord, histories: Histories, analytics: Analytics, autoflush: bool)
    : Result<Progress, RefreshError>
  {
    match FirstMatch(p.db.funds, ByExternal(r.externalId))
    case None => Err(MissingFund)
    case Some(i) =>
      var db := p.db.(nav := p.db.nav + HistoryRows(p, i, histories(r.externalId), autoflush));
      match RefreshedMetrics(db, i, analytics)
      case Err(e) => Err(e)
      case Ok(metrics) => Ok(Progress(db.(metrics := metrics), db.nav))
  }

  function HistoryPass(p: Progress, eligible: seq<FundRecord>, histories: Histories, analytics: Analytics,
                       autoflush: bool, fault: Option<nat>, n: nat): Result<Progress, RefreshError>
    requires n <= |eligible|
  {
    if n == 0 then Ok(p)
    else
      match HistoryPass(p, eligible, histories, analytics, autoflush, fault, n - 1)
      case Err(e) => Err(e)
      case Ok(q) =>
        if fault == Some(n - 1) then Err(Fault)
        else HistoryStep(q, eligible[n - 1], histories, analytics, autoflush)
  }

  // ----- one refresh

  /** Everything a call depends on besides the database: the upstream, the clock, the limit and the faults. */
  datatype Call = Call(
    records: Option<seq<FundRecord>>, now: int, isHistorical: bool, limit: Option<int>, histories: Histories,
    analytics: Analytics, autoflush: bool, runCommits: bool, catalogueFault: Option<nat>,
    historyFault: Option<nat>, commits: bool, errorCommits: bool)

  /** The work inside the try block, on the working tables. */
  function Work(db: Db, call: Call): Result<Db, RefreshError> {
    if call.records.None? then Err(FetchFailed)
    else
      var records := call.records.value;
      match Catalogue(db, records, call.now, call.catalogueFault, |records|)
      case Err(e) => Err(e)
      case Ok(p) =>
        var eligible := if call.isHistorical then EligibleRecords(p, call.autoflush, records, call.limit) else [];
        match HistoryPass(p, eligible, call.histories, call.analytics, call.autoflush, call.historyFault, |eligible|)
        case Err(e) => Err(e)
        case Ok(q) => if call.commits then Ok(q.db) else Err(CommitFailed)
  }

  datatype World = World(db: Db, locked: bool)

  /** The tables a refresh is about; its own run record is not one of them. */
  ghost predicate SameTables(a: Db, b: Db) {
    a.sources == b.sources && a.funds == b.funds && a.nav == b.nav && a.market == b.market && a.metrics == b.metrics
  }

  function WithRun(db: Db, run: IngestionRun): Db
    requires db.runs != []
  {
    db.(runs := db.runs[|db.runs| - 1 := run])
  }

  /** The committed state, the lock and the outcome after a call. */
  function AfterRefresh(w: World, call: Call): (World, Option<RefreshError>) {
    if w.locked then (w, Some(AlreadyRunning))
    else if !call.runCommits then (World(w.db, true), Some(CommitFailed))
    else
      var started := w.db.(runs := w.db.runs + [IngestionRun(Running, 0, 0)]);
      match Work(started, call)
      case Ok(db) =>
        var n := |call.records.value|;
        (World(WithRun(db.(runs := started.runs), IngestionRun(Success, n, n)), false), None)
      case Err(e) =>
        (World(if call.errorCommits then WithRun(started, IngestionRun(Error, 0, 0)) else started, false), Some(e))
  }

  // ----- the coordinator

  class RefreshCoordinator {
    var committed: Db
    var working: Db
    var flushed: seq<NavRow>
    var locked: bool

    ghost function Outside(): World
      reads this
    {
      World(committed, locked)
    }

    constructor (db: Db)
      ensures Outside() == World(db, false)
    {
      committed, working, flushed, locked := db, db, db.nav, false;
    }

    /** One catalogue record: source, fund, NAV row, market row. */
    method UpsertRecord(r: FundRecord, now: int) returns (error: Option<RefreshError>)
      modifies this`working, this`flushed
      ensures match CatalogueStep(old(working), r, now)
              case Ok(p) => error.None? && working == p.db && flushed == p.flushed
              case Err(e) => error == Some(e)
    {
      var i := FundIndex(working.funds, r);
      working := working.(sources := SourceAfter(working.sources, r), funds := Upserted(working.funds, r));
      if !UniqueKeys(working.funds) { return Some(Integrity); }
      flushed := working.nav;
      working := working.(nav := working.nav + RecordNavRows(working.nav, i, r, now),
                          market := working.market + RecordMarketRows(working.market, i, r, now));
      return None;
    }

    method LoadCatalogue(records: seq<FundRecord>, now: int, fault: Option<nat>) returns (error: Option<RefreshError>)
      requires flushed == working.nav
      modifies this`working, this`flushed
      ensures match Catalogue(old(working), records, now, fault, |records|)
              case Ok(p) => error.None? && working == p.db && flushed == p.flushed
              case Err(e) => error == Some(e)
    {
      ghost var start := working;
      hide CatalogueStep;
      for i := 0 to |records|
        invariant Catalogue(start, records, now, fault, i) == Ok(Progress(working, flushed))
      {
        if fault == Some(i) {
          CatalogueFails(start, records, now, fault, i + 1, |records|);
          return Some(Fault);
        }
        error := UpsertRecord(records[i], now);
        if error.Some? {
          CatalogueFails(start, records, now, fault, i + 1, |records|);
          return error;
        }
      }
      return None;
    }

    /** The record loop of one fund's history. */
    method AddHistory(o: Owner, history: seq<Observation>, autoflush: bool)
      modifies this`working
      ensures working == old(working).(nav := old(working).nav
        + NewRows(o, history, if autoflush then old(working).nav else flushed, None, None, autoflush))
    {
      ghost var base := working.nav;
      ghost var stored := if autoflush then base else flushed;
      assert base + [] == base;
      for i := 0 to |history|
        invariant working == old(working).(nav := base + NewRows(o, history[..i], stored, None, None, autoflush))
      {
        var r := history[i];
        assert history[..i + 1][..i] == history[..i];
        ghost var rows := NewRows(o, history[..i], stored, None, None, autoflush);
        HasDayConcat(base, rows, o.id, Day(r));
        var visible := if autoflush then working.nav else flushed;
        if !HasDay(visible, o.id, Day(r)) {
          assert (base + rows) + [RowFor(o, r)] == base + (rows + [RowFor(o, r)]);
          working := working.(nav := working.nav + [RowFor(o, r)]);
        }
      }
      assert history[..|history|] == history;
    }

    /** One selected fund: history, flush, metrics. */
    method RefreshHistory(r: FundRecord, call: Call) returns (error: Option<RefreshError>)
      modifies this`working, this`flushed
      ensures match HistoryStep(Progress(old(working), old(flushed)), r, call.histories, call.analytics, call.autoflush)
              case Ok(p) => error.None? && working == p.db && flushed == p.flushed
              case Err(e) => error == Some(e)
    {
      var found := FirstMatch(working.funds, ByExternal(r.externalId));
      if found.None? { return Some(MissingFund); }
      var i := found.value;
      ghost var p := Progress(working, flushed);
      var answer := call.histories(r.externalId);
      ghost var start := working.nav;
      if answer.Some? {
        AddHistory(Owner(i, working.funds[i].source, true), answer.value, call.autoflush);
      } else {
        assert start + [] == start;
      }
      assert working == p.db.(nav := p.db.nav + HistoryRows(p, i, answer, call.autoflush));
      flushed := working.nav;
      var metrics := RefreshedMetrics(working, i, call.analytics);
      if metrics.Err? { return Some(metrics.error); }
      working := working.(metrics := metrics.value);
      return None;
    }

    method FetchHistories(eligible: seq<FundRecord>, call: Call) returns (error: Option<RefreshError>)
      modifies this`working, this`flushed
      ensures match HistoryPass(Progress(old(working), old(flushed)), eligible, call.histories, call.analytics,
                                call.autoflush, call.historyFault, |eligible|)
              case Ok(p) => error.None? && working == p.db && flushed == p.flushed
              case Err(e) => error == Some(e)
    {
      ghost var start := Progress(working, flushed);
      hide HistoryStep;
      for i := 0 to |eligible|
        invariant HistoryPass(start, eligible, call.histories, call.analytics, call.autoflush, call.historyFault, i)
          == Ok(Progress(working, flushed))
      {
        if call.historyFault == Some(i) {
          HistoryPassFails(start, eligible, call, i + 1, |eligible|);
          return Some(Fault);
        }
        error := RefreshHistory(eligible[i], call);
        if error.Some? {
          HistoryPassFails(start, eligible, call, i + 1, |eligible|);
          return error;
        }
      }
      return None;
    }

    /** The work inside the try block. */
    method TryWork(call: Call) returns (error: Option<RefreshError>)
      requires flushed == working.nav
      modifies this`working, this`flushed
      ensures match Work(old(working), call)
              case Ok(db) => error.None? && working == db
              case Err(e) => error == Some(e)
    {
      hide Catalogue; hide HistoryPass; hide EligibleRecords;
      if call.records.None? { return Some(FetchFailed); }
      error := LoadCatalogue(call.records.value, call.now, call.catalogueFault);
      if error.Some? { return; }
      var p := Progress(working, flushed);
      var eligible := if call.isHistorical
        then EligibleRecords(p, call.autoflush, call.records.value, call.limit) else [];
      error := FetchHistories(eligible, call);
      if error.Some? { return; }
      if !call.commits { return Some(CommitFailed); }
      return None;
    }

    /** One refresh: the lock is taken before the run row is committed, outside the try block. */
    method RefreshFunds(call: Call) returns (error: Option<RefreshError>)
      modifies this
      ensures (Outside(), error) == AfterRefresh(old(Outside()), call)
      // all or nothing: an error leaves the tables as they were, a refused call even the runs
      ensures error.Some? ==> SameTables(old(committed), committed)
      ensures old(locked) ==> committed == old(committed) && error == Some(AlreadyRunning)
      ensures !old(locked) && call.runCommits ==> |committed.runs| == |old(committed).runs| + 1
      ensures committed.runs[..|old(committed).runs|] == old(committed).runs
      // the lock is lost exactly when the commit of the run row raises
      ensures locked <==> old(locked) || !call.runCommits
    {
      hide Work;
      if locked { return Some(AlreadyRunning); }
      locked := true;
      working := committed.(runs := committed.runs + [IngestionRun(Running, 0, 0)]);
      if !call.runCommits { return Some(CommitFailed); }
      committed := working;
      flushed := working.nav;
      ghost var started := committed;
      error := TryWork(call);
      if error.None? {
        WorkNeedsRecords(started, call);
        var n := |call.records.value|;
        working := working.(runs := committed.runs[|committed.runs| - 1 := IngestionRun(Success, n, n)]);
        committed := working;
      } else {
        working := committed;
        if call.errorCommits {
          working := WithRun(working, IngestionRun(Error, 0, 0));
          committed := working;
        }
      }
      locked := false;
    }
  }

  lemma WorkNeedsRecords(db: Db, call: Call)
    requires Work(db, call).Ok?
    ensures call.records.Some?
  {}

  lemma {:induction false} CatalogueFails(db: Db, records: seq<FundRecord>, now: int, fault: Option<nat>, k: nat,
                                          n: nat)
    requires k <= n <= |records| && Catalogue(db, records, now, fault, k).Err?
    ensures Catalogue(db, records, now, fault, n) == Catalogue(db, records, now, fault, k)
  {
    hide CatalogueStep;
    if k < n { CatalogueFails(db, records, now, fault, k, n - 1); }
  }

  lemma {:induction false} HistoryPassFails(p: Progress, eligible: seq<FundRecord>, call: Call, k: nat, n: nat)
    requires k <= n <= |eligible|
    requires HistoryPass(p, eligible, call.histories, call.analytics, call.autoflush, call.historyFault, k).Err?
    ensures HistoryPass(p, eligible, call.histories, call.analytics, call.autoflush, call.historyFault, n)
      == HistoryPass(p, eligible, call.histories, call.analytics, call.autoflush, call.historyFault, k)
  {
    hide HistoryStep;
    if k < n { HistoryPassFails(p, eligible, call, k, n - 1); }
  }
}
