/**
 What a refresh writes, field by field: the fund a catalogue record lands on, the rows it leaves, where every new
 row comes from, and the metrics of the funds whose history was fetched.
 */
module RefreshContents {
  import opened Common
  import opened NavTable
  import opened NavContents
  import opened Ordering
  import opened Refresh
  import opened RefreshRuns
  import opened RefreshTwice

  // ----- the fund of a record

  ghost predicate SameId(f: Fund, r: FundRecord) { f.externalId == Some(r.externalId) }

  ghost predicate SameSymbol(f: Fund, r: FundRecord) { r.symbol.Some? && r.symbol.value != "" && f.symbol == r.symbol }

  ghost predicate SameName(f: Fund, r: FundRecord) { f.name == r.name && f.fundType == r.fundType }

  ghost predicate NoId(funds: seq<Fund>, r: FundRecord, n: nat)
    requires n <= |funds|
  {
    forall j :: 0 <= j < n ==> !SameId(funds[j], r)
  }

  ghost predicate NoSymbol(funds: seq<Fund>, r: FundRecord, n: nat)
    requires n <= |funds|
  {
    forall j :: 0 <= j < n ==> !SameSymbol(funds[j], r)
  }

  ghost predicate NoName(funds: seq<Fund>, r: FundRecord, n: nat)
    requires n <= |funds|
  {
    forall j :: 0 <= j < n ==> !SameName(funds[j], r)
  }

  /**
   The record belongs to fund i: the first with its external id; when there is none, the first with its non-empty
   symbol; when there is none, the first with its name and type; when there is none, a new fund at the end.
   */
  ghost predicate LandsOn(funds: seq<Fund>, r: FundRecord, i: nat) {
    var n := |funds|;
    || (i < n && SameId(funds[i], r) && NoId(funds, r, i))
    || (i < n && NoId(funds, r, n) && SameSymbol(funds[i], r) && NoSymbol(funds, r, i))
    || (i < n && NoId(funds, r, n) && NoSymbol(funds, r, n) && SameName(funds[i], r) && NoName(funds, r, i))
    || (i == n && NoId(funds, r, n) && NoSymbol(funds, r, n) && NoName(funds, r, n))
  }

  /** A fund that carries the facts of a record. */
  ghost predicate FundTold(f: Fund, r: FundRecord) {
    && f.externalId == Some(r.externalId) && f.symbol == r.symbol && f.name == r.name && f.fundType == r.fundType
    && f.isActive == r.isActive && f.details == r.details
    && f.source == Some(r.sourceName) && f.quality == r.facts.quality && f.lastDataAt == r.facts.observedAt
  }

  lemma MatchesTold(f: Fund, r: FundRecord)
    ensures Matches(f, ByExternal(r.externalId)) == SameId(f, r)
    ensures r.symbol.Some? && r.symbol.value != "" ==> Matches(f, BySymbol(r.symbol.value)) == SameSymbol(f, r)
    ensures Matches(f, ByName(r.name, r.fundType)) == SameName(f, r)
  {}

  lemma IndexLandsOn(funds: seq<Fund>, r: FundRecord)
    ensures LandsOn(funds, r, FundIndex(funds, r))
  {
    forall j | 0 <= j < |funds|
      ensures Matches(funds[j], ByExternal(r.externalId)) == SameId(funds[j], r)
      ensures r.symbol.Some? && r.symbol.value != "" ==>
        Matches(funds[j], BySymbol(r.symbol.value)) == SameSymbol(funds[j], r)
      ensures Matches(funds[j], ByName(r.name, r.fundType)) == SameName(funds[j], r)
    {
      MatchesTold(funds[j], r);
    }
    hide Matches; hide FirstMatch; hide SameId; hide SameName;
  }

  // ----- the rows of a record

  /** The record's own moment, or the time of the refresh on the UTC clock. */
  ghost predicate MomentTold(m: Moment, r: FundRecord, now: int) {
    if r.facts.observedAt.Some? then m == r.facts.observedAt.value else m.at == now && m.offset == 0
  }

  ghost predicate NavRowTold(row: NavRow, r: FundRecord, now: int) {
    && r.nav == Some(row.nav) && row.netAssets == r.netAssets
    && row.source == Some(r.sourceName) && row.quality == r.facts.quality
    && MomentTold(row.observedAt, r, now) && row.day == (row.observedAt.at + row.observedAt.offset) / 86400
  }

  ghost predicate MarketRowTold(row: MarketRow, r: FundRecord, now: int) {
    && row.quote == r.quote && (r.quote.price.Some? || r.quote.volume.Some? || r.quote.value.Some?)
    && row.source == r.sourceName && row.quality == r.facts.quality
    && MomentTold(row.observedAt, r, now) && row.day == (row.observedAt.at + row.observedAt.offset) / 86400
  }

  ghost predicate MarketDayTaken(rows: seq<MarketRow>, fundId: nat, day: int) {
    exists k :: 0 <= k < |rows| && rows[k].fundId == fundId && rows[k].day == day
  }

  /** The record's NAV becomes one more row of fund i, unless it has none or its day is taken. */
  ghost predicate NavTold(before: seq<NavRow>, after: seq<NavRow>, r: FundRecord, now: int, i: nat) {
    || (after == before && (r.nav.None? || exists m :: MomentTold(m, r, now) && DayTaken(before, i, DayOf(m))))
    || (|after| == |before| + 1 && before <= after && after[|before|].fundId == i
        && NavRowTold(after[|before|], r, now) && !DayTaken(before, i, after[|before|].day))
  }

  ghost predicate MarketTold(before: seq<MarketRow>, after: seq<MarketRow>, r: FundRecord, now: int, i: nat) {
    || (after == before && (r.quote == Quote(None, None, None)
                            || exists m :: MomentTold(m, r, now) && MarketDayTaken(before, i, DayOf(m))))
    || (|after| == |before| + 1 && before <= after && after[|before|].fundId == i
        && MarketRowTold(after[|before|], r, now) && !MarketDayTaken(before, i, after[|before|].day))
  }

  /** The record's source carries its facts and one more record; other sources stay. */
  ghost predicate SourcesTold(before: map<string, Source>, after: map<string, Source>, r: FundRecord) {
    && after.Keys == before.Keys + {r.sourceName}
    && after[r.sourceName].facts == r.facts
    && after[r.sourceName].recordCount
         == 1 + (if r.sourceName in before then before[r.sourceName].recordCount else 0)
    && forall s :: s in before && s != r.sourceName ==> after[s] == before[s]
  }

  ghost predicate FundsTold(before: seq<Fund>, after: seq<Fund>, r: FundRecord, i: nat) {
    && i <= |before| && |after| == (if i == |before| then |before| + 1 else |before|)
    && i < |after| && FundTold(after[i], r)
    && forall j :: 0 <= j < |before| && j != i ==> after[j] == before[j]
  }

  /** Two funds share an external id or a symbol. */
  ghost predicate Clash(funds: seq<Fund>) {
    exists i, j :: 0 <= i < j < |funds| && SharedKey(funds[i], funds[j])
  }

  ghost predicate SharedKey(f: Fund, g: Fund) {
    (f.externalId.Some? && f.externalId == g.externalId) || (f.symbol.Some? && f.symbol == g.symbol)
  }

  /** Everything one catalogue record changes. */
  ghost predicate RecordTold(db: Db, after: Db, r: FundRecord, now: int, i: nat) {
    && LandsOn(db.funds, r, i) && FundsTold(db.funds, after.funds, r, i)
    && SourcesTold(db.sources, after.sources, r)
    && NavTold(db.nav, after.nav, r, now, i) && MarketTold(db.market, after.market, r, now, i)
    && after.metrics == db.metrics && after.runs == db.runs
  }

  lemma ObservedIsTold(r: FundRecord, now: int)
    ensures MomentTold(ObservedAt(r, now), r, now) && RecordDay(r, now) == DayOf(ObservedAt(r, now))
    ensures DayOf(ObservedAt(r, now)) == (ObservedAt(r, now).at + ObservedAt(r, now).offset) / 86400
  {}

  lemma NavRowsTold(nav: seq<NavRow>, i: nat, r: FundRecord, now: int)
    ensures NavTold(nav, nav + RecordNavRows(nav, i, r, now), r, now, i)
  {
    ObservedIsTold(r, now);
    hide ObservedAt; hide DayOf; hide MomentTold;
    assert HasDay(nav, i, RecordDay(r, now)) == DayTaken(nav, i, RecordDay(r, now));
    hide HasDay; hide DayTaken;
    var rows := RecordNavRows(nav, i, r, now);
    if rows == [] { assert nav + rows == nav; }
  }

  lemma MarketRowsTold(market: seq<MarketRow>, i: nat, r: FundRecord, now: int)
    ensures MarketTold(market, market + RecordMarketRows(market, i, r, now), r, now, i)
  {
    ObservedIsTold(r, now);
    hide ObservedAt; hide DayOf; hide MomentTold;
    assert HasMarketDay(market, i, RecordDay(r, now)) == MarketDayTaken(market, i, RecordDay(r, now));
    hide HasMarketDay; hide MarketDayTaken;
    var rows := RecordMarketRows(market, i, r, now);
    if rows == [] { assert market + rows == market; }
  }

  lemma UpsertTold(funds: seq<Fund>, r: FundRecord)
    ensures FundsTold(funds, Upserted(funds, r), r, FundIndex(funds, r))
  {
    hide FundIndex;
  }

  lemma UniqueIsNoClash(funds: seq<Fund>)
    ensures UniqueKeys(funds) <==> !Clash(funds)
  {
    if UniqueKeys(funds) {
      forall i, j | 0 <= i < j < |funds| ensures !SharedKey(funds[i], funds[j]) {}
    } else {
      if i, j :| 0 <= i < j < |funds| && funds[i].externalId.Some? && funds[i].externalId == funds[j].externalId {
        assert SharedKey(funds[i], funds[j]);
      }
      if i, j :| 0 <= i < j < |funds| && funds[i].symbol.Some? && funds[i].symbol == funds[j].symbol {
        assert SharedKey(funds[i], funds[j]);
      }
    }
  }

  /**
   One catalogue record in full: the fund it lands on takes its facts, its source too, its NAV and its quote become
   rows of that fund unless the day is taken; and it is refused exactly when two funds would share a key.
   */
  lemma RecordInFigures(db: Db, r: FundRecord, now: int)
    ensures match CatalogueStep(db, r, now)
            case Ok(p) => (exists i :: RecordTold(db, p.db, r, now, i)) && !Clash(p.db.funds) && p.flushed == db.nav
            case Err(e) =>
              e == Integrity
              && exists i, funds :: LandsOn(db.funds, r, i) && FundsTold(db.funds, funds, r, i) && Clash(funds)
  {
    var i := FundIndex(db.funds, r);
    IndexLandsOn(db.funds, r);
    UpsertTold(db.funds, r);
    UniqueIsNoClash(Upserted(db.funds, r));
    NavRowsTold(db.nav, i, r, now);
    MarketRowsTold(db.market, i, r, now);
    SourceTold(db.sources, r);
    hide FundIndex; hide Upserted; hide LandsOn; hide FundsTold; hide NavTold; hide MarketTold; hide SourcesTold;
    hide SourceAfter; hide RecordNavRows; hide RecordMarketRows; hide UniqueKeys; hide Clash;
    if UniqueKeys(Upserted(db.funds, r)) {
      assert RecordTold(db, CatalogueStep(db, r, now).value.db, r, now, i);
    }
  }

  lemma SourceTold(sources: map<string, Source>, r: FundRecord)
    ensures SourcesTold(sources, SourceAfter(sources, r), r)
  {}

  // ----- the turn of a selected fund

  /** A row no other row of the list is later than, and none stored after it is of the same day. */
  ghost predicate LatestIn(row: NavRow, rows: seq<NavRow>) {
    exists k :: LatestAt(rows, k) && rows[k] == row
  }

  ghost predicate LatestAt(rows: seq<NavRow>, k: int) {
    && 0 <= k < |rows|
    && (forall j :: 0 <= j < k ==> rows[j].day <= rows[k].day)
    && (forall j :: k < j < |rows| ==> rows[j].day < rows[k].day)
  }

  lemma {:induction false} LatestRowAt(rows: seq<NavRow>) returns (k: int)
    requires rows != []
    ensures LatestAt(rows, k) && LatestRow(rows) == rows[k]
  {
    k := |rows| - 1;
    if k > 0 {
      var rest := rows[..k];
      var j := LatestRowAt(rest);
      assert rest[j] == rows[j];
      if rows[k].day < rest[j].day { k := j; }
    }
  }

  /** With two rows or more the fund has the metrics of its rows, its source and quality; otherwise what it had. */
  ghost predicate MetricsTold(before: map<nat, Metrics>, after: map<nat, Metrics>, fund: Fund, i: nat,
                              rows: seq<NavRow>, analytics: Analytics) {
    if |rows| < 2 then after == before
    else
      && after.Keys == before.Keys + {i}
      && (forall j :: j in before && j != i ==> after[j] == before[j])
      && analytics(rows) == Some(after[i].values)
      && after[i].source == fund.source && after[i].quality == fund.quality && LatestIn(after[i].lastRow, rows)
  }

  lemma MetricsInFigures(db: Db, i: nat, analytics: Analytics)
    requires i < |db.funds|
    ensures match RefreshedMetrics(db, i, analytics)
            case Ok(metrics) => MetricsTold(db.metrics, metrics, db.funds[i], i, RowsOf(db.nav, i), analytics)
            case Err(e) => e == BadMetrics && |RowsOf(db.nav, i)| >= 2 && analytics(RowsOf(db.nav, i)).None?
  {
    hide RowsOf; hide LatestAt;
    if |RowsOf(db.nav, i)| >= 2 {
      var k := LatestRowAt(RowsOf(db.nav, i));
    }
    hide LatestRow;
  }

  /** The position of the first fund with an external id. */
  ghost predicate FirstWithId(funds: seq<Fund>, id: string, i: nat) {
    i < |funds| && funds[i].externalId == Some(id) && forall j :: 0 <= j < i ==> funds[j].externalId != Some(id)
  }

  /**
   The turn of one selected fund: behind the stored rows come the rows of its history, seen against the flushed
   table or with flushing against all of it, and the metrics follow; an unanswered fund keeps its rows.
   */
  ghost predicate TurnTold(p: Progress, after: Progress, r: FundRecord, call: Call, i: nat) {
    && FirstWithId(p.db.funds, r.externalId, i)
    && after.db.funds == p.db.funds && after.db.sources == p.db.sources && after.db.market == p.db.market
    && after.flushed == after.db.nav && p.db.nav <= after.db.nav
    && AnswerTold(p, after.db.nav[|p.db.nav|..], i, call.histories(r.externalId), call.autoflush)
    && MetricsTold(p.db.metrics, after.db.metrics, p.db.funds[i], i, RowsOf(after.db.nav, i), call.analytics)
  }

  ghost predicate AnswerTold(p: Progress, rows: seq<NavRow>, i: nat, answer: Option<seq<Observation>>,
                             autoflush: bool)
    requires i < |p.db.funds|
  {
    match answer
    case None => rows == []
    case Some(history) =>
      StoresHistory(rows, Owner(i, p.db.funds[i].source, true), history, if autoflush then p.db.nav else p.flushed,
                    None, None, autoflush)
  }

  lemma HistoryRowsTold(p: Progress, i: nat, answer: Option<seq<Observation>>, autoflush: bool)
    requires i < |p.db.funds|
    ensures AnswerTold(p, HistoryRows(p, i, answer, autoflush), i, answer, autoflush)
  {
    if answer.Some? {
      RowsHoldRecords(Owner(i, p.db.funds[i].source, true), answer.value,
                      if autoflush then p.db.nav else p.flushed, None, None, autoflush);
    }
    hide StoresHistory; hide NewRows;
  }

  lemma TurnInFigures(p: Progress, r: FundRecord, call: Call)
    requires Turn(p, r, call).Ok?
    ensures FirstMatch(p.db.funds, ByExternal(r.externalId)).Some?
    ensures TurnTold(p, Turn(p, r, call).value, r, call, FirstMatch(p.db.funds, ByExternal(r.externalId)).value)
  {
    var i := FirstMatch(p.db.funds, ByExternal(r.externalId)).value;
    var answer := call.histories(r.externalId);
    var rows := HistoryRows(p, i, answer, call.autoflush);
    HistoryRowsTold(p, i, answer, call.autoflush);
    MetricsInFigures(p.db.(nav := p.db.nav + rows), i, call.analytics);
    assert (p.db.nav + rows)[|p.db.nav|..] == rows;
    forall j | 0 <= j < i ensures p.db.funds[j].externalId != Some(r.externalId) {
      assert !Matches(p.db.funds[j], ByExternal(r.externalId));
    }
    hide HistoryRows; hide RefreshedMetrics; hide AnswerTold; hide MetricsTold; hide FirstMatch; hide RowsOf;
  }

  // ----- which funds are selected

  /** The stored rows a query sees for the fund with the record's external id. */
  ghost function RowsHeld(p: Progress, r: FundRecord, autoflush: bool): set<int> {
    var visible := if autoflush then p.db.nav else p.flushed;
    set k | 0 <= k < |visible| && FirstWithId(p.db.funds, r.externalId, visible[k].fundId)
  }

  ghost function PositionsOf(nav: seq<NavRow>, i: nat): set<int> { set k | 0 <= k < |nav| && nav[k].fundId == i }

  lemma {:induction false} RowsOfPositions(nav: seq<NavRow>, i: nat)
    ensures |RowsOf(nav, i)| == |PositionsOf(nav, i)|
  {
    if nav == [] {
      assert PositionsOf(nav, i) == {};
    } else {
      var rest, n := nav[..|nav| - 1], |nav| - 1;
      RowsOfPositions(rest, i);
      assert n !in PositionsOf(rest, i);
      assert PositionsOf(nav, i) == PositionsOf(rest, i) + if nav[n].fundId == i then {n} else {};
    }
  }

  lemma OnlyFirst(funds: seq<Fund>, id: string, i: nat)
    requires FirstWithId(funds, id, i)
    ensures forall j: nat :: FirstWithId(funds, id, j) <==> j == i
  {}

  lemma FirstMatchIsFirst(funds: seq<Fund>, id: string)
    ensures var found := FirstMatch(funds, ByExternal(id));
      if found.Some? then FirstWithId(funds, id, found.value) else forall j: nat :: !FirstWithId(funds, id, j)
  {
    forall j | 0 <= j < |funds| ensures Matches(funds[j], ByExternal(id)) == (funds[j].externalId == Some(id)) {}
    hide FirstMatch; hide Matches;
  }

  lemma CountInFigures(p: Progress, r: FundRecord, autoflush: bool)
    ensures HistoryCount(p, r, autoflush) == |RowsHeld(p, r, autoflush)|
  {
    FirstMatchIsFirst(p.db.funds, r.externalId);
    var found, visible := FirstMatch(p.db.funds, ByExternal(r.externalId)), if autoflush then p.db.nav else p.flushed;
    hide FirstMatch; hide RowsOf;
    if found.Some? {
      OnlyFirst(p.db.funds, r.externalId, found.value);
      RowsOfPositions(visible, found.value);
      hide FirstWithId;
      assert RowsHeld(p, r, autoflush) == PositionsOf(visible, found.value);
    } else {
      forall k | 0 <= k < |visible| ensures k !in RowsHeld(p, r, autoflush) {
        assert !FirstWithId(p.db.funds, r.externalId, visible[k].fundId);
      }
      assert RowsHeld(p, r, autoflush) == {};
    }
  }

  /** Fewer stored rows come first; equal numbers are in the order of their external ids. */
  ghost predicate NeedsFirst(p: Progress, autoflush: bool, a: FundRecord, b: FundRecord) {
    var x, y := |RowsHeld(p, a, autoflush)|, |RowsHeld(p, b, autoflush)|;
    x < y || (x == y && LexLe(a.externalId, b.externalId))
  }

  lemma {:induction false} ActiveOnly(records: seq<FundRecord>, x: FundRecord)
    ensures multiset(ActiveRecords(records))[x] == if x.isActive then multiset(records)[x] else 0
  {
    if records != [] {
      var rest, last := records[..|records| - 1], records[|records| - 1];
      ActiveOnly(rest, x);
      assert records == rest + [last];
    }
  }

  /** How many of n candidates a limit selects. */
  ghost function Allowed(limit: Option<int>, n: nat): nat {
    if limit.None? || limit.value >= n then n else if limit.value > 0 then limit.value else 0
  }

  /**
   The selection for any limit: the active records of the catalogue, each as often as it is listed, in the order of
   need, cut to the limit.
   */
  lemma SelectionInFigures(p: Progress, autoflush: bool, records: seq<FundRecord>, limit: Option<int>)
    ensures var all, selected := EligibleRecords(p, autoflush, records, None),
                                 EligibleRecords(p, autoflush, records, limit);
      && selected <= all && |selected| == Allowed(limit, |all|)
      && (forall x: FundRecord :: multiset(all)[x] == if x.isActive then multiset(records)[x] else 0)
      && (forall i, j :: 0 <= i < j < |all| ==> NeedsFirst(p, autoflush, all[i], all[j]))
  {
    SortedByNeed(p, autoflush, ActiveRecords(records));
    SortedActive(p, autoflush, records);
    hide StableSort; hide ActiveRecords; hide NeedsFirst;
  }

  lemma SortedActive(p: Progress, autoflush: bool, records: seq<FundRecord>)
    ensures var all := StableSort(ActiveRecords(records), ByNeed(p, autoflush));
      forall x: FundRecord :: multiset(all)[x] == if x.isActive then multiset(records)[x] else 0
  {
    var all := StableSort(ActiveRecords(records), ByNeed(p, autoflush));
    hide StableSort; hide ActiveRecords; hide ByNeed;
    forall x: FundRecord ensures multiset(all)[x] == if x.isActive then multiset(records)[x] else 0 {
      ActiveOnly(records, x);
    }
  }

  lemma SortedByNeed(p: Progress, autoflush: bool, active: seq<FundRecord>)
    ensures var all := StableSort(active, ByNeed(p, autoflush));
      forall i, j :: 0 <= i < j < |all| ==> NeedsFirst(p, autoflush, all[i], all[j])
  {
    var le := ByNeed(p, autoflush);
    ByNeedIsAnOrder(p, autoflush);
    SortIsStable(active, le);
    var all := StableSort(active, le);
    hide StableSort; hide HistoryCount; hide RowsHeld; hide TotalPreorder;
    forall i, j | 0 <= i < j < |all| ensures NeedsFirst(p, autoflush, all[i], all[j]) {
      assert le(all[i], all[j]);
      CountInFigures(p, all[i], autoflush);
      CountInFigures(p, all[j], autoflush);
    }
  }

  // ----- where the rows of a refresh come from

  /** A row of a catalogue record, on a fund of the table; that fund carries the record unless another took it. */
  ghost predicate FromCatalogue(row: NavRow, funds: seq<Fund>, records: seq<FundRecord>, r: FundRecord, now: int) {
    && NavRowTold(row, r, now) && row.fundId < |funds|
    && (DistinctRecords(records) ==> FundTold(funds[row.fundId], r))
  }

  /** A row of an observation of an active fund's history, on the fund with its external id. */
  ghost predicate FromHistory(row: NavRow, funds: seq<Fund>, r: FundRecord, call: Call) {
    && r.isActive && FirstWithId(funds, r.externalId, row.fundId)
    && call.histories(r.externalId).Some?
    && HoldsSome(row, Owner(row.fundId, funds[row.fundId].source, true), call.histories(r.externalId).value)
  }

  ghost predicate HoldsSome(row: NavRow, o: Owner, history: seq<Observation>) {
    exists k :: 0 <= k < |history| && HoldsRecord(row, o, history[k])
  }

  ghost predicate CatalogueOrigin(row: NavRow, funds: seq<Fund>, records: seq<FundRecord>, n: nat, now: int)
    requires n <= |records|
  {
    exists k :: 0 <= k < n && FromCatalogue(row, funds, records, records[k], now)
  }

  ghost predicate HistoryOrigin(row: NavRow, funds: seq<Fund>, call: Call)
    requires call.records.Some?
  {
    exists k :: 0 <= k < |call.records.value| && FromHistory(row, funds, call.records.value[k], call)
  }

  /** All rows from position m on come from one of the first n records. */
  ghost predicate AllFromCatalogue(db: Db, m: nat, records: seq<FundRecord>, n: nat, now: int)
    requires n <= |records|
  {
    forall k :: m <= k < |db.nav| ==> CatalogueOrigin(db.nav[k], db.funds, records, n, now)
  }

  lemma OriginStays(row: NavRow, before: seq<Fund>, after: seq<Fund>, records: seq<FundRecord>, n: nat, now: int,
                    i: nat)
    requires n < |records| && CatalogueOrigin(row, before, records, n, now)
    requires LandsOn(before, records[n], i) && FundsTold(before, after, records[n], i)
    ensures CatalogueOrigin(row, after, records, n + 1, now)
  {
    hide NavRowTold; hide LandsOn; hide FundTold; hide DifferentFunds;
    var k :| 0 <= k < n && FromCatalogue(row, before, records, records[k], now);
    if DistinctRecords(records) {
      assert DifferentFunds(records[k], records[n]);
      ToldElsewhere(before, records[n], records[k], row.fundId, i);
    }
    assert FromCatalogue(row, after, records, records[k], now);
  }

  /** A record never lands on the fund another record of a catalogue of distinct records is told on. */
  lemma ToldElsewhere(funds: seq<Fund>, r: FundRecord, other: FundRecord, at: nat, i: nat)
    requires DifferentFunds(other, r) && at < |funds| && FundTold(funds[at], other) && LandsOn(funds, r, i)
    ensures i != at
  {
    hide NoId; hide NoSymbol; hide NoName;
  }

  lemma RecordOrigin(db: Db, after: Db, m: nat, records: seq<FundRecord>, n: nat, now: int, i: nat)
    requires n < |records| && m <= |db.nav| && AllFromCatalogue(db, m, records, n, now)
    requires RecordTold(db, after, records[n], now, i)
    ensures AllFromCatalogue(after, m, records, n + 1, now)
  {
    hide LandsOn; hide SourcesTold; hide MarketTold; hide NavRowTold; hide CatalogueOrigin;
    forall k | m <= k < |after.nav| ensures CatalogueOrigin(after.nav[k], after.funds, records, n + 1, now) {
      if k < |db.nav| {
        assert after.nav[k] == db.nav[k];
        OriginStays(db.nav[k], db.funds, after.funds, records, n, now, i);
      } else {
        NewOrigin(after.nav[k], after.funds, records, n, now);
      }
    }
  }

  lemma NewOrigin(row: NavRow, funds: seq<Fund>, records: seq<FundRecord>, n: nat, now: int)
    requires n < |records| && NavRowTold(row, records[n], now)
    requires row.fundId < |funds| && FundTold(funds[row.fundId], records[n])
    ensures CatalogueOrigin(row, funds, records, n + 1, now)
  {
    hide NavRowTold; hide FundTold; hide DistinctRecords;
    assert FromCatalogue(row, funds, records, records[n], now);
  }

  lemma NothingFromCatalogue(db: Db, records: seq<FundRecord>, now: int, fault: Option<nat>)
    ensures Catalogue(db, records, now, fault, 0).Ok?
    ensures AllFromCatalogue(Catalogue(db, records, now, fault, 0).value.db, |db.nav|, records, 0, now)
  {}

  lemma NextOrigins(db: Db, records: seq<FundRecord>, now: int, fault: Option<nat>, n: nat)
    requires n < |records| && Catalogue(db, records, now, fault, n).Ok? && Catalogue(db, records, now, fault, n + 1).Ok?
    requires |db.nav| <= |Catalogue(db, records, now, fault, n).value.db.nav|
    requires AllFromCatalogue(Catalogue(db, records, now, fault, n).value.db, |db.nav|, records, n, now)
    ensures AllFromCatalogue(Catalogue(db, records, now, fault, n + 1).value.db, |db.nav|, records, n + 1, now)
  {
    hide Catalogue; hide CatalogueStep; hide AllFromCatalogue; hide RecordTold; hide Clash;
    NextRecord(db, records, now, fault, n);
    var before := Catalogue(db, records, now, fault, n).value.db;
    RecordInFigures(before, records[n], now);
    var i :| RecordTold(before, Catalogue(db, records, now, fault, n + 1).value.db, records[n], now, i);
    RecordOrigin(before, Catalogue(db, records, now, fault, n + 1).value.db, |db.nav|, records, n, now, i);
  }

  lemma {:induction false} CatalogueOrigins(db: Db, records: seq<FundRecord>, now: int, fault: Option<nat>, n: nat)
    requires n <= |records| && Catalogue(db, records, now, fault, n).Ok?
    ensures AllFromCatalogue(Catalogue(db, records, now, fault, n).value.db, |db.nav|, records, n, now)
  {
    hide Catalogue; hide AllFromCatalogue;
    if n == 0 {
      NothingFromCatalogue(db, records, now, fault);
    } else {
      NextRecord(db, records, now, fault, n - 1);
      CatalogueOrigins(db, records, now, fault, n - 1);
      CatalogueExtends(db, records, now, fault, n - 1);
      NextOrigins(db, records, now, fault, n - 1);
    }
  }

  /** All rows from position m on come from histories. */
  ghost predicate AllFromHistories(db: Db, m: nat, call: Call)
    requires call.records.Some?
  {
    forall k :: m <= k < |db.nav| ==> HistoryOrigin(db.nav[k], db.funds, call)
  }

  lemma StoredHoldsSome(rows: seq<NavRow>, o: Owner, history: seq<Observation>, stored: seq<NavRow>, autoflush: bool,
                        k: nat)
    requires StoresHistory(rows, o, history, stored, None, None, autoflush) && k < |rows|
    ensures HoldsSome(rows[k], o, history) && rows[k].fundId == o.id
  {
    hide HoldsRecord; hide PicksThose;
    var picks: seq<nat> :| HoldsExactly(rows, o, history, picks, stored, None, None, autoflush);
    assert HoldsRecord(rows[k], o, history[picks[k]]);
    HoldsOwner(rows[k], o, history[picks[k]]);
  }

  lemma HoldsOwner(row: NavRow, o: Owner, r: Observation)
    requires HoldsRecord(row, o, r)
    ensures row.fundId == o.id
  {}

  lemma TurnOrigin(p: Progress, after: Progress, m: nat, call: Call, c: nat, i: nat)
    requires call.records.Some? && c < |call.records.value| && call.records.value[c].isActive
    requires m <= |p.db.nav| && AllFromHistories(p.db, m, call)
    requires TurnTold(p, after, call.records.value[c], call, i)
    ensures AllFromHistories(after.db, m, call)
  {
    hide StoresHistory; hide HoldsSome; hide MetricsTold; hide FirstWithId;
    var r := call.records.value[c];
    forall k | m <= k < |after.db.nav| ensures HistoryOrigin(after.db.nav[k], after.db.funds, call) {
      if k < |p.db.nav| {
        assert after.db.nav[k] == p.db.nav[k];
      } else {
        var rows := after.db.nav[|p.db.nav|..];
        assert rows[k - |p.db.nav|] == after.db.nav[k];
        IdInTable(p.db.funds, r.externalId, i);
        StoredHoldsSome(rows, Owner(i, p.db.funds[i].source, true), call.histories(r.externalId).value,
                        if call.autoflush then p.db.nav else p.flushed, call.autoflush, k - |p.db.nav|);
        assert FromHistory(after.db.nav[k], after.db.funds, r, call);
      }
    }
  }

  lemma IdInTable(funds: seq<Fund>, id: string, i: nat)
    requires FirstWithId(funds, id, i)
    ensures i < |funds|
  {}

  lemma NextHistories(p: Progress, selection: seq<FundRecord>, call: Call, n: nat)
    requires call.records.Some? && n < |selection| && p.flushed <= p.db.nav
    requires selection[n] in call.records.value && selection[n].isActive
    requires Pass(p, selection, call, n).Ok? && Pass(p, selection, call, n + 1).Ok?
    requires AllFromHistories(Pass(p, selection, call, n).value.db, |p.db.nav|, call)
    ensures AllFromHistories(Pass(p, selection, call, n + 1).value.db, |p.db.nav|, call)
  {
    hide Pass; hide Turn; hide AllFromHistories; hide TurnTold; hide FirstMatch;
    PassStep(p, selection, call, n);
    PassExtends(p, selection, call, n);
    var q := Pass(p, selection, call, n).value;
    TurnInFigures(q, selection[n], call);
    var c :| 0 <= c < |call.records.value| && call.records.value[c] == selection[n];
    var i := FirstMatch(q.db.funds, ByExternal(selection[n].externalId)).value;
    TurnOrigin(q, Turn(q, selection[n], call).value, |p.db.nav|, call, c, i);
  }

  lemma {:induction false} PassOrigins(p: Progress, selection: seq<FundRecord>, call: Call, n: nat)
    requires call.records.Some? && n <= |selection| && p.flushed <= p.db.nav && Pass(p, selection, call, n).Ok?
    requires forall x :: x in selection ==> x in call.records.value && x.isActive
    ensures AllFromHistories(Pass(p, selection, call, n).value.db, |p.db.nav|, call)
  {
    if n == 0 { return; }
    hide Pass; hide AllFromHistories;
    PassStep(p, selection, call, n - 1);
    PassOrigins(p, selection, call, n - 1);
    assert selection[n - 1] in selection;
    NextHistories(p, selection, call, n - 1);
  }

  lemma SelectedAreActive(p: Progress, call: Call)
    requires call.records.Some?
    ensures forall x :: x in Selection(p, call) ==> x in call.records.value && x.isActive
  {
    var records := call.records.value;
    ActiveRecordsAre(records);
    hide ActiveRecords; hide StableSort;
    if call.isHistorical {
      var sorted := StableSort(ActiveRecords(records), ByNeed(p, call.autoflush));
      forall x | x in sorted ensures x in ActiveRecords(records) {
        assert x in multiset(sorted);
      }
    }
  }

  ghost predicate HasOrigin(row: NavRow, funds: seq<Fund>, call: Call)
    requires call.records.Some?
  {
    || CatalogueOrigin(row, funds, call.records.value, |call.records.value|, call.now)
    || HistoryOrigin(row, funds, call)
  }

  /**
   Every NAV row a refresh commits is the row of a record of its catalogue or of an observation of an active
   fund's history, with all its fields and on that record's fund.
   */
  lemma EveryRowHasOrigin(w: World, call: Call)
    requires AfterRefresh(w, call).1.None?
    ensures call.records.Some?
    ensures var after := AfterRefresh(w, call).0.db;
      forall k :: |w.db.nav| <= k < |after.nav| ==> HasOrigin(after.nav[k], after.funds, call)
  {
    var started := StartedDb(w.db);
    hide Work;
    WorkOrigins(started, call);
  }

  lemma WorkOrigins(db: Db, call: Call)
    requires Work(db, call).Ok?
    ensures call.records.Some?
    ensures var after := Work(db, call).value;
      forall k :: |db.nav| <= k < |after.nav| ==> HasOrigin(after.nav[k], after.funds, call)
  {
    hide Work; hide Pass; hide Selection; hide CatalogueOrigin; hide HistoryOrigin; hide Catalogue;
    WorkParts(db, call);
    var records := call.records.value;
    var p := LoadedCatalogue(db, call).value;
    CatalogueExtends(db, records, call.now, call.catalogueFault, |records|);
    CatalogueOrigins(db, records, call.now, call.catalogueFault, |records|);
    hide LoadedCatalogue;
    SelectedAreActive(p, call);
    PassExtends(p, Selection(p, call), call, |Selection(p, call)|);
    PassOrigins(p, Selection(p, call), call, |Selection(p, call)|);
  }

  // ----- the outcome

  /** A refresh that returns leaves the lock free and one successful run with the number of its records. */
  lemma SuccessIsRecorded(w: World, call: Call)
    requires AfterRefresh(w, call).1.None?
    ensures !w.locked && call.runCommits && call.commits && call.records.Some?
    ensures AfterRefresh(w, call).0.db.runs
      == w.db.runs + [IngestionRun(Success, |call.records.value|, |call.records.value|)]
    ensures !AfterRefresh(w, call).0.locked
  {
    var started := StartedDb(w.db);
    hide Work;
    WorkSucceeds(started, call);
    var run := IngestionRun(Success, |call.records.value|, |call.records.value|);
    assert started.runs[|started.runs| - 1 := run] == w.db.runs + [run];
  }

  lemma WorkSucceeds(db: Db, call: Call)
    requires Work(db, call).Ok?
    ensures call.records.Some? && call.commits
  {
    hide Catalogue; hide HistoryPass; hide EligibleRecords;
  }

  lemma {:induction false} CatalogueErrors(db: Db, records: seq<FundRecord>, now: int, fault: Option<nat>, n: nat)
    requires n <= |records| && Catalogue(db, records, now, fault, n).Err?
    ensures var e := Catalogue(db, records, now, fault, n).error;
      e == Integrity || (e == Fault && fault.Some?)
    decreases n
  {
    if Catalogue(db, records, now, fault, n - 1).Err? { CatalogueErrors(db, records, now, fault, n - 1); }
    hide Upserted; hide UniqueKeys; hide SourceAfter; hide RecordNavRows; hide RecordMarketRows;
  }

  lemma {:induction false} PassErrors(p: Progress, selection: seq<FundRecord>, call: Call, n: nat)
    requires n <= |selection| && Pass(p, selection, call, n).Err?
    ensures var e := Pass(p, selection, call, n).error;
      e == MissingFund || e == BadMetrics || (e == Fault && call.historyFault.Some?)
    decreases n
  {
    if Pass(p, selection, call, n - 1).Err? { PassErrors(p, selection, call, n - 1); }
    hide HistoryRows; hide RowsOf; hide LatestRow; hide FirstMatch;
  }

  /** What a raised refresh can be told, and why. */
  ghost predicate RaisedFor(w: World, call: Call, e: RefreshError) {
    match e
    case AlreadyRunning => w.locked
    case CommitFailed => !w.locked && (!call.runCommits || (call.records.Some? && !call.commits))
    case FetchFailed => !w.locked && call.runCommits && call.records.None?
    case Fault => !w.locked && call.runCommits && (call.catalogueFault.Some? || call.historyFault.Some?)
    case _ => !w.locked && call.runCommits && call.records.Some?
  }

  /** Every error has its cause: the lock, a commit, the fetch, a fault, or the contents of the tables. */
  lemma ErrorsHaveCauses(w: World, call: Call)
    ensures AfterRefresh(w, call).1.Some? ==> RaisedFor(w, call, AfterRefresh(w, call).1.value)
  {
    var started := StartedDb(w.db);
    hide Work;
    if Work(started, call).Err? { WorkErrors(started, call); }
  }

  lemma WorkErrors(db: Db, call: Call)
    requires Work(db, call).Err?
    ensures match Work(db, call).error
            case FetchFailed => call.records.None?
            case CommitFailed => call.records.Some? && !call.commits
            case Fault => call.catalogueFault.Some? || call.historyFault.Some?
            case AlreadyRunning => false
            case _ => call.records.Some?
  {
    hide Catalogue; hide Pass; hide EligibleRecords;
    if call.records.Some? {
      var records := call.records.value;
      var loaded := Catalogue(db, records, call.now, call.catalogueFault, |records|);
      if loaded.Err? {
        CatalogueErrors(db, records, call.now, call.catalogueFault, |records|);
      } else {
        PassOf(loaded.value, Selection(loaded.value, call), call);
        if Pass(loaded.value, Selection(loaded.value, call), call, |Selection(loaded.value, call)|).Err? {
          PassErrors(loaded.value, Selection(loaded.value, call), call, |Selection(loaded.value, call)|);
        }
      }
    }
    hide HistoryPass;
  }

  lemma PassOf(p: Progress, selection: seq<FundRecord>, call: Call)
    ensures Pass(p, selection, call, |selection|)
      == HistoryPass(p, selection, call.histories, call.analytics, call.autoflush, call.historyFault, |selection|)
  {}
}
