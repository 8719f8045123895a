/**
 Reading one fund's history payload: the items are sorted by instant, the first item of every instant is
 kept, and a kept item must have a positive NAV. Items with different offsets can name the same instant.
 */
module FipiranHistory {
  import opened Common
  import opened Ordering
  import opened NavTable
  import opened FipiranCatalogue

  datatype NavItem = NavItem(moment: Moment, nav: real)

  predicate NotLater(a: NavItem, b: NavItem) { a.moment.at <= b.moment.at }

  predicate HasInstant(items: seq<NavItem>, at: int) {
    exists i :: 0 <= i < |items| && items[i].moment.at == at
  }

  /** The first item of every instant, in the order they have in the list. */
  function Firsts(items: seq<NavItem>): seq<NavItem> {
    if items == [] then []
    else
      var item, rest := items[|items| - 1], items[..|items| - 1];
      Firsts(rest) + if HasInstant(rest, item.moment.at) then [] else [item]
  }

  function Observed(item: NavItem): Observation { Observation(item.moment, item.nav, None, "valid") }

  function Observations(items: seq<NavItem>): (r: seq<Observation>)
    ensures |r| == |items|
  {
    seq(|items|, i requires 0 <= i < |items| => Observed(items[i]))
  }

  function HistoryOf(items: seq<NavItem>): seq<Observation> { Observations(Firsts(StableSort(items, NotLater))) }

  /** The item at i is the first of the payload for its instant. */
  ghost predicate IsFirst(items: seq<NavItem>, i: int) {
    0 <= i < |items| && forall j :: 0 <= j < i ==> items[j].moment.at != items[i].moment.at
  }

  ghost predicate AllPositive(items: seq<NavItem>) { forall i :: 0 <= i < |items| ==> items[i].nav > 0.0 }

  /** Only the first item of every instant is looked at. */
  ghost predicate FirstsPositive(items: seq<NavItem>) { forall i :: IsFirst(items, i) ==> items[i].nav > 0.0 }

  /** An observation that tells an item: its moment and NAV, no net assets, and valid quality. */
  ghost predicate TellsItem(o: Observation, item: NavItem) {
    o.observedAt == item.moment && o.nav == item.nav && o.netAssets.None? && o.quality == "valid"
  }

  /** A history in time order that holds exactly what the first listed item of every instant tells. */
  ghost predicate HistoryTold(h: seq<Observation>, items: seq<NavItem>) {
    && (forall i, j :: 0 <= i < j < |h| ==> h[i].observedAt.at < h[j].observedAt.at)
    && (forall o :: o in h <==> FirstTells(o, items))
  }

  ghost predicate FirstTells(o: Observation, items: seq<NavItem>) {
    exists i :: IsFirst(items, i) && TellsItem(o, items[i])
  }

  method FetchNavHistory(items: seq<NavItem>) returns (r: Result<seq<Observation>, PayloadError>)
    ensures r.Ok? <==> FirstsPositive(items)
    ensures r.Ok? ==> r.value == HistoryOf(items) && HistoryTold(r.value, items)
    ensures r.Err? ==> r.error == NonPositiveHistoricalNav
  {
    hide StableSort; hide HasInstant; hide Firsts; hide FirstsPositive; hide AllPositive; hide Observations;
    hide HistoryTold;
    HistoryIsTold(items);
    var sorted := StableSort(items, NotLater);
    PositiveIff(items);
    NothingSeen();
    var records: seq<Observation> := [];
    var seen: set<int> := {};
    for i := 0 to |sorted|
      invariant Seen(seen, sorted[..i])
      invariant records == Observations(Firsts(sorted[..i])) && AllPositive(Firsts(sorted[..i]))
    {
      var item := sorted[i];
      Sees(seen, sorted, i);
      if item.moment.at !in seen {
        seen := seen + {item.moment.at};
        if item.nav <= 0.0 { return Err(NonPositiveHistoricalNav); }
        records := records + [Observed(item)];
      }
    }
    assert sorted[..|sorted|] == sorted;
    r := Ok(records);
  }

  ghost predicate Seen(seen: set<int>, items: seq<NavItem>) { forall m :: m in seen <==> HasInstant(items, m) }

  lemma NothingSeen()
    ensures Seen({}, []) && AllPositive(Firsts([])) && Observations(Firsts([])) == []
  {}

  /** One item read: what is seen, what is kept, and whether the history is still acceptable. */
  lemma Sees(seen: set<int>, items: seq<NavItem>, i: nat)
    requires i < |items| && Seen(seen, items[..i]) && AllPositive(Firsts(items[..i]))
    ensures Seen(seen + {items[i].moment.at}, items[..i + 1])
    ensures items[i].moment.at in seen ==> Seen(seen, items[..i + 1]) && Firsts(items[..i + 1]) == Firsts(items[..i])
    ensures items[i].moment.at !in seen ==>
      Observations(Firsts(items[..i + 1])) == Observations(Firsts(items[..i])) + [Observed(items[i])]
    ensures items[i].moment.at in seen || items[i].nav > 0.0 <==> AllPositive(Firsts(items[..i + 1]))
    ensures AllPositive(Firsts(items)) ==> AllPositive(Firsts(items[..i + 1]))
  {
    hide Observations; hide AllPositive; hide HasInstant; hide Seen;
    var item, rest := items[i], items[..i];
    FirstsStep(items, i);
    FirstsPrefix(items, i + 1);
    SeesItem(seen, rest, item, Firsts(rest), Firsts(items[..i + 1]), Firsts(items));
  }

  lemma FirstsStep(items: seq<NavItem>, i: nat)
    requires i < |items|
    ensures items[..i + 1] == items[..i] + [items[i]]
    ensures Firsts(items[..i + 1]) ==
      Firsts(items[..i]) + if HasInstant(items[..i], items[i].moment.at) then [] else [items[i]]
  {
    assert items[..i + 1][..i] == items[..i];
  }

  lemma SeesItem(seen: set<int>, rest: seq<NavItem>, item: NavItem, before: seq<NavItem>, after: seq<NavItem>,
                 kept: seq<NavItem>)
    requires Seen(seen, rest) && AllPositive(before) && after <= kept
    requires after == before + if HasInstant(rest, item.moment.at) then [] else [item]
    ensures Seen(seen + {item.moment.at}, rest + [item])
    ensures item.moment.at in seen ==> Seen(seen, rest + [item]) && after == before
    ensures item.moment.at !in seen ==> Observations(after) == Observations(before) + [Observed(item)]
    ensures item.moment.at in seen || item.nav > 0.0 <==> AllPositive(after)
    ensures AllPositive(kept) ==> AllPositive(after)
  {
    MomentAppend(rest, item);
    KeepsOne(before, item);
    PositivePrefix(after, kept);
    hide Observations; hide AllPositive; hide HasInstant;
    if item.moment.at in seen { assert seen + {item.moment.at} == seen; }
  }

  lemma KeepsOne(kept: seq<NavItem>, item: NavItem)
    ensures Observations(kept + [item]) == Observations(kept) + [Observed(item)]
    ensures AllPositive(kept + [item]) <==> AllPositive(kept) && item.nav > 0.0
  {
    var all := kept + [item];
    assert all[|kept|] == item && forall k :: 0 <= k < |kept| ==> all[k] == kept[k];
  }

  lemma PositivePrefix(a: seq<NavItem>, b: seq<NavItem>)
    requires a <= b
    ensures AllPositive(b) ==> AllPositive(a)
  {}

  lemma MomentAppend(items: seq<NavItem>, item: NavItem)
    ensures forall m :: HasInstant(items + [item], m) <==> HasInstant(items, m) || m == item.moment.at
  {
    var all := items + [item];
    assert all[|items|] == item;
    forall m | HasInstant(items, m) ensures HasInstant(all, m) {
      var i :| 0 <= i < |items| && items[i].moment.at == m;
      assert all[i].moment.at == m;
    }
  }

  lemma {:induction false} FirstsPrefix(items: seq<NavItem>, n: nat)
    requires n <= |items|
    ensures Firsts(items[..n]) <= Firsts(items)
  {
    if n < |items| {
      FirstsPrefix(items[..|items| - 1], n);
      assert items[..|items| - 1][..n] == items[..n];
    } else {
      assert items[..n] == items;
    }
  }

  // ----- firsts before and after sorting

  lemma {:induction false} MomentTies(items: seq<NavItem>, e: NavItem)
    ensures HasInstant(items, e.moment.at) <==> Ties(items, e, NotLater) != []
  {
    if items != [] {
      MomentTies(items[1..], e);
      if HasInstant(items[1..], e.moment.at) {
        var i :| 0 <= i < |items[1..]| && items[1..][i].moment.at == e.moment.at;
        assert items[i + 1].moment.at == e.moment.at;
      }
      if i :| 0 <= i < |items| && items[i].moment.at == e.moment.at && i > 0 {
        assert items[1..][i - 1].moment.at == e.moment.at;
      }
    }
  }

  /** An item is among the firsts exactly when it leads its ties. */
  lemma {:induction false} FirstsLeadTies(items: seq<NavItem>, e: NavItem)
    ensures e in Firsts(items) <==> Ties(items, e, NotLater) != [] && Ties(items, e, NotLater)[0] == e
  {
    if items != [] {
      var n := |items| - 1;
      var rest, item := items[..n], items[n];
      assert items == rest + [item];
      FirstsLeadTies(rest, e);
      MomentTies(rest, e);
      TiesConcat(rest, [item], e, NotLater);
      assert Ties([item], e, NotLater) == if item.moment.at == e.moment.at then [item] else [];
    }
  }

  lemma {:induction false} FirstInPayload(items: seq<NavItem>, e: NavItem)
    ensures e in Firsts(items) <==> LedBy(items, e)
  {
    if items == [] { return; }
    var n := |items| - 1;
    hide LedBy; hide HasInstant;
    FirstInPayload(items[..n], e);
    LedByStep(items, e);
  }

  ghost predicate LedAt(items: seq<NavItem>, e: NavItem, i: int) { IsFirst(items, i) && items[i] == e }

  /** e is an item that comes first for its instant. */
  ghost predicate LedBy(items: seq<NavItem>, e: NavItem) { exists i :: LedAt(items, e, i) }

  lemma LedInPrefix(items: seq<NavItem>, e: NavItem, i: int)
    requires items != []
    ensures LedAt(items[..|items| - 1], e, i) <==> LedAt(items, e, i) && i != |items| - 1
  {
    var rest := items[..|items| - 1];
    if 0 <= i < |rest| { assert forall j :: 0 <= j <= i ==> rest[j] == items[j]; }
  }

  lemma LedAtEnd(items: seq<NavItem>, e: NavItem)
    requires items != []
    ensures var n := |items| - 1;
      LedAt(items, e, n) <==> !HasInstant(items[..n], items[n].moment.at) && items[n] == e
  {
    FirstAtEnd(items);
  }

  lemma LedByStep(items: seq<NavItem>, e: NavItem)
    requires items != []
    ensures var n := |items| - 1;
      LedBy(items, e) <==>
        LedBy(items[..n], e) || (!HasInstant(items[..n], items[n].moment.at) && items[n] == e)
  {
    hide HasInstant; hide LedAt;
    LedAtEnd(items, e);
    if LedBy(items, e) {
      var i :| LedAt(items, e, i);
      LedInPrefix(items, e, i);
    }
    if LedBy(items[..|items| - 1], e) {
      var i :| LedAt(items[..|items| - 1], e, i);
      LedInPrefix(items, e, i);
    }
  }

  lemma FirstAtEnd(items: seq<NavItem>)
    requires items != []
    ensures IsFirst(items, |items| - 1) <==> !HasInstant(items[..|items| - 1], items[|items| - 1].moment.at)
  {
    var n := |items| - 1;
    if j :| 0 <= j < n && items[j].moment.at == items[n].moment.at {
      assert items[..n][j].moment.at == items[n].moment.at;
    }
  }

  lemma NotLaterIsAnOrder()
    ensures TotalPreorder(NotLater)
  {}

  /** Sorting does not change which item of an instant is kept. */
  lemma KeptItems(items: seq<NavItem>, e: NavItem)
    ensures e in Firsts(StableSort(items, NotLater)) <==> LedBy(items, e)
  {
    NotLaterIsAnOrder();
    SortIsStable(items, NotLater);
    assert Ties(StableSort(items, NotLater), e, NotLater) == Ties(items, e, NotLater);
    FirstsLeadTies(StableSort(items, NotLater), e);
    FirstsLeadTies(items, e);
    FirstInPayload(items, e);
  }

  lemma PositiveIff(items: seq<NavItem>)
    ensures AllPositive(Firsts(StableSort(items, NotLater))) <==> FirstsPositive(items)
  {
    var kept := Firsts(StableSort(items, NotLater));
    hide StableSort; hide Firsts; hide IsFirst;
    if AllPositive(kept) {
      forall i | IsFirst(items, i) ensures 0 <= i < |items| && items[i].nav > 0.0 {
        FirstInRange(items, i);
        KeptItems(items, items[i]);
        assert LedAt(items, items[i], i);
        assert items[i] in kept;
      }
    }
    if FirstsPositive(items) {
      forall k | 0 <= k < |kept| ensures kept[k].nav > 0.0 {
        KeptItems(items, kept[k]);
      }
    }
  }

  lemma FirstInRange(items: seq<NavItem>, i: int)
    requires IsFirst(items, i)
    ensures 0 <= i < |items|
  {}

  // ----- the history a payload gives

  ghost predicate Increasing(f: seq<NavItem>) { forall i, j :: 0 <= i < j < |f| ==> f[i].moment.at < f[j].moment.at }

  lemma {:induction false} FirstsIncrease(items: seq<NavItem>)
    requires Ordered(items, NotLater)
    ensures Increasing(Firsts(items))
  {
    if items != [] {
      var n := |items| - 1;
      var rest, f := items[..n], Firsts(items[..n]);
      FirstsIncrease(rest);
      forall k | 0 <= k < |f| ensures f[k].moment.at <= items[n].moment.at && HasInstant(rest, f[k].moment.at) {
        FirstInPayload(rest, f[k]);
        var i :| LedAt(rest, f[k], i);
        assert NotLater(items[i], items[n]);
      }
    }
  }

  /** A read history is strictly increasing in time, whatever the order of the payload. */
  lemma HistoryIncreases(items: seq<NavItem>)
    ensures var h := HistoryOf(items); forall i, j :: 0 <= i < j < |h| ==> h[i].observedAt.at < h[j].observedAt.at
  {
    NotLaterIsAnOrder();
    SortIsStable(items, NotLater);
    var kept := Firsts(StableSort(items, NotLater));
    FirstsIncrease(StableSort(items, NotLater));
    hide Firsts; hide StableSort; hide Ordered;
    var h := HistoryOf(items);
    forall i, j | 0 <= i < j < |h| ensures h[i].observedAt.at < h[j].observedAt.at {
      assert h[i] == Observed(kept[i]) && h[j] == Observed(kept[j]);
    }
  }

  /** It holds the first listed item of every instant, and nothing else. */
  lemma HistoryHolds(items: seq<NavItem>, o: Observation)
    ensures o in HistoryOf(items) <==> exists i :: IsFirst(items, i) && Observed(items[i]) == o
  {
    var kept := Firsts(StableSort(items, NotLater));
    hide StableSort; hide Firsts;
    if o in HistoryOf(items) {
      var k :| 0 <= k < |kept| && Observed(kept[k]) == o;
      KeptItems(items, kept[k]);
      var i :| LedAt(items, kept[k], i);
    }
    if exists i :: IsFirst(items, i) && Observed(items[i]) == o {
      var i :| IsFirst(items, i) && Observed(items[i]) == o;
      KeptItems(items, items[i]);
      assert LedAt(items, items[i], i);
      var k :| 0 <= k < |kept| && kept[k] == items[i];
      assert HistoryOf(items)[k] == o;
    }
  }

  /** The same, field by field: exactly what the first listed items tell. */
  lemma HistoryInFigures(items: seq<NavItem>, o: Observation)
    ensures o in HistoryOf(items) <==> FirstTells(o, items)
  {
    HistoryHolds(items, o);
    hide HistoryOf;
    if i :| IsFirst(items, i) && TellsItem(o, items[i]) {
      assert Observed(items[i]) == o;
    }
    if i :| IsFirst(items, i) && Observed(items[i]) == o {
      assert TellsItem(o, items[i]);
    }
  }

  lemma HistoryIsTold(items: seq<NavItem>)
    ensures HistoryTold(HistoryOf(items), items)
  {
    HistoryIncreases(items);
    hide HistoryOf; hide FirstTells;
    forall o ensures o in HistoryOf(items) <==> FirstTells(o, items) { HistoryInFigures(items, o); }
  }

  lemma {:induction false} FirstOf(items: seq<NavItem>, i: nat)
    requires i < |items|
    ensures exists k :: IsFirst(items, k) && items[k].moment.at == items[i].moment.at
  {
    if !IsFirst(items, i) {
      var j :| 0 <= j < i && items[j].moment.at == items[i].moment.at;
      FirstOf(items, j);
    }
  }

  /** No two items that are first for their instants fall on one calendar day, each on its own clock. */
  ghost predicate FirstsOnOwnDays(items: seq<NavItem>) {
    forall i, j :: IsFirst(items, i) && IsFirst(items, j) && i < j ==>
      DayOf(items[i].moment) != DayOf(items[j].moment)
  }

  ghost predicate DistinctDays(h: seq<Observation>) {
    forall i, j :: 0 <= i < j < |h| ==> Day(h[i]) != Day(h[j])
  }

  lemma KeptFirst(items: seq<NavItem>, i: int) returns (k: nat)
    requires IsFirst(items, i)
    ensures k < |HistoryOf(items)| && HistoryOf(items)[k] == Observed(items[i])
  {
    HistoryHolds(items, Observed(items[i]));
    assert Observed(items[i]) in HistoryOf(items);
    k :| k < |HistoryOf(items)| && HistoryOf(items)[k] == Observed(items[i]);
  }

  lemma ReadFrom(items: seq<NavItem>, k: nat) returns (i: int)
    requires k < |HistoryOf(items)|
    ensures IsFirst(items, i) && HistoryOf(items)[k] == Observed(items[i])
  {
    HistoryHolds(items, HistoryOf(items)[k]);
    assert HistoryOf(items)[k] in HistoryOf(items);
    i :| IsFirst(items, i) && Observed(items[i]) == HistoryOf(items)[k];
  }

  /** Repeats of an instant are dropped, repeats of a day are not: the days differ exactly when the firsts' days do. */
  lemma DistinctDaysIff(items: seq<NavItem>)
    ensures DistinctDays(HistoryOf(items)) <==> FirstsOnOwnDays(items)
  {
    var h := HistoryOf(items);
    HistoryIncreases(items);
    hide HistoryOf; hide DayOf;
    if FirstsOnOwnDays(items) {
      forall i, j | 0 <= i < j < |h| ensures Day(h[i]) != Day(h[j]) {
        var a := ReadFrom(items, i);
        var b := ReadFrom(items, j);
        assert a != b;
      }
    }
    if DistinctDays(h) {
      forall i, j | IsFirst(items, i) && IsFirst(items, j) && i < j
        ensures DayOf(items[i].moment) != DayOf(items[j].moment)
      {
        var a := KeptFirst(items, i);
        var b := KeptFirst(items, j);
        assert a != b;
      }
    }
  }

  /**
   Storing a fund's first history without autoflush gives one row a day exactly when the first items of the
   payload fall on different days.
   */
  lemma FirstHistoryUniqueIff(owner: Owner, items: seq<NavItem>)
    ensures UniqueRows(NewRows(owner, HistoryOf(items), [], None, None, false)) <==> FirstsOnOwnDays(items)
  {
    var h := HistoryOf(items);
    NewRowsUniqueIff(owner, h, [], None, false);
    DistinctDaysIff(items);
    hide HistoryOf; hide FirstsOnOwnDays;
    if DistinctNewDays(owner, h, [], None) {
      forall i, j | 0 <= i < j < |h| ensures Day(h[i]) != Day(h[j]) {
        assert Eligible(h[i], None, None) && !HasDay([], owner.id, Day(h[i]));
      }
    }
  }

  lemma UniqueHistory(owner: Owner, items: seq<NavItem>, stored: seq<NavRow>, from: Option<int>)
    requires FirstsOnOwnDays(items)
    ensures DistinctNewDays(owner, HistoryOf(items), stored, from)
  {
    DistinctDaysIff(items);
  }

  // ----- one clock, and two

  ghost predicate OneClock(items: seq<NavItem>, offset: int) {
    forall i :: 0 <= i < |items| ==> items[i].moment.offset == offset
  }

  /** Items of one day name one instant. */
  ghost predicate OneInstantPerDay(items: seq<NavItem>) {
    forall i, j :: 0 <= i < |items| && 0 <= j < |items| && DayOf(items[i].moment) == DayOf(items[j].moment) ==>
      items[i].moment.at == items[j].moment.at
  }

  /** With a single offset the condition is that every day has one instant. */
  lemma OnOneClock(items: seq<NavItem>, offset: int)
    requires OneClock(items, offset)
    ensures FirstsOnOwnDays(items) <==> OneInstantPerDay(items)
  {
    if FirstsOnOwnDays(items) {
      forall i, j | 0 <= i < |items| && 0 <= j < |items| && DayOf(items[i].moment) == DayOf(items[j].moment)
        ensures items[i].moment.at == items[j].moment.at
      {
        FirstOf(items, i);
        FirstOf(items, j);
        var a :| IsFirst(items, a) && items[a].moment.at == items[i].moment.at;
        var b :| IsFirst(items, b) && items[b].moment.at == items[j].moment.at;
        assert items[a].moment == items[i].moment && items[b].moment == items[j].moment;
        assert a != b ==> a < b || b < a;
      }
    }
  }

  /** Half past midnight at +03:30 and noon of the same date in UTC: two UTC days, one stored day. */
  lemma OffsetsShareADay(owner: Owner, midnight: int, nav: real)
    requires midnight % SECONDS_PER_DAY == 0
    ensures var early, late := Moment(midnight + 1800 - 12600, 12600), Moment(midnight + 43200, 0);
      && DayOf(early.(offset := 0)) != DayOf(late)
      && !UniqueRows(NewRows(owner, HistoryOf([NavItem(early, nav), NavItem(late, nav)]), [], None, None, false))
  {
    var early, late := Moment(midnight + 1800 - 12600, 12600), Moment(midnight + 43200, 0);
    var items := [NavItem(early, nav), NavItem(late, nav)];
    FirstHistoryUniqueIff(owner, items);
    assert IsFirst(items, 0) && IsFirst(items, 1) && DayOf(early) == DayOf(late);
  }
}
