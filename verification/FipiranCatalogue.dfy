/** What the provider makes of a catalogue payload: which items it keeps, and which payloads it refuses. */
module FipiranCatalogue {
  import opened Common

  datatype Item = Item(regNo: string, name: string, completed: bool, identity: Identity)

  /** The fields in which repeated items must agree. */
  datatype Identity = Identity(
    kind: int, initiated: Option<int>, symbol: Option<string>, investType: Option<string>,
    cancelNav: Option<real>, statisticalNav: Option<real>, netAsset: Option<real>, manager: Option<string>, date: int)

  datatype Record = Record(externalId: string, name: string, symbol: Option<string>, fundType: string,
                           nav: Option<real>, netAsset: Option<real>, manager: Option<string>, active: bool)

  datatype PayloadError = ConflictingDuplicate(regNo: string) | NonPositiveNav(regNo: string) | NonPositiveHistoricalNav

  function FundType(code: int): Option<string> {
    match code
    case 4 => Some("fixed_income")
    case 5 => Some("gold")
    case 6 => Some("equity")
    case 7 => Some("mixed")
    case 21 => Some("equity")
    case 22 => Some("leveraged")
    case 23 => Some("index")
    case _ => None
  }

  /** The statistical NAV, unless it is missing or zero. */
  function NavOf(d: Identity): Option<real> {
    if d.statisticalNav.Some? && d.statisticalNav.value != 0.0 then d.statisticalNav else d.cancelNav
  }

  function RecordFor(item: Item, fundType: string): Record {
    var d := item.identity;
    Record(item.regNo, item.name, d.symbol, fundType, NavOf(d), d.netAsset, d.manager, item.completed)
  }

  predicate Listed(items: seq<Item>, regNo: string) {
    exists i :: 0 <= i < |items| && items[i].regNo == regNo
  }

  /** The records of a payload: for every registration number its first item, if the type is known. */
  function RecordsOf(items: seq<Item>): seq<Record> {
    if items == [] then []
    else
      var item, rest := items[|items| - 1], items[..|items| - 1];
      var fundType := FundType(item.identity.kind);
      RecordsOf(rest) + if Listed(rest, item.regNo) || fundType.None? then [] else [RecordFor(item, fundType.value)]
  }

  ghost predicate Agreeing(items: seq<Item>) {
    forall i, j :: 0 <= i < j < |items| && items[i].regNo == items[j].regNo ==> items[i].identity == items[j].identity
  }

  ghost predicate BadNav(d: Identity) {
    FundType(d.kind).Some? && NavOf(d).Some? && NavOf(d).value <= 0.0
  }

  ghost predicate Priced(items: seq<Item>) { forall i :: 0 <= i < |items| ==> !BadNav(items[i].identity) }

  ghost predicate Acceptable(items: seq<Item>) { Agreeing(items) && Priced(items) }

  /** What the reader remembers: the identity of every registration number met so far. */
  ghost predicate Remembers(seen: map<string, Identity>, items: seq<Item>) {
    && (forall n :: n in seen <==> Listed(items, n))
    && forall k :: 0 <= k < |items| ==> items[k].regNo in seen && seen[items[k].regNo] == items[k].identity
  }

  /** The seven type codes the service knows, with the name each is stored under. */
  ghost predicate TypeTold(code: int, fundType: string) {
    || (code == 4 && fundType == "fixed_income") || (code == 5 && fundType == "gold")
    || (code == 6 && fundType == "equity") || (code == 7 && fundType == "mixed")
    || (code == 21 && fundType == "equity") || (code == 22 && fundType == "leveraged")
    || (code == 23 && fundType == "index")
  }

  ghost predicate KnownCode(code: int) { code == 4 || code == 5 || code == 6 || code == 7 || 21 <= code <= 23 }

  /** The NAV of an item: its statistical NAV, or its cancellation NAV when that is missing or zero. */
  ghost predicate NavTold(d: Identity, nav: Option<real>) {
    if d.statisticalNav == None || d.statisticalNav == Some(0.0) then nav == d.cancelNav else nav == d.statisticalNav
  }

  ghost predicate RecordTold(r: Record, item: Item) {
    && r.externalId == item.regNo && r.name == item.name && r.active == item.completed
    && r.symbol == item.identity.symbol && r.netAsset == item.identity.netAsset
    && r.manager == item.identity.manager
    && TypeTold(item.identity.kind, r.fundType) && NavTold(item.identity, r.nav)
  }

  /** The item at i is the first with its registration number, and of a known type. */
  ghost predicate GivesRecord(items: seq<Item>, i: nat)
    requires i < |items|
  {
    KnownCode(items[i].identity.kind) && forall j :: 0 <= j < i ==> items[j].regNo != items[i].regNo
  }

  /** Record a is that of the item at picks[a], and the picked positions increase. */
  ghost predicate RecordsAt(records: seq<Record>, items: seq<Item>, picks: seq<nat>) {
    && |picks| == |records|
    && (forall a :: 0 <= a < |picks| ==> picks[a] < |items| && RecordTold(records[a], items[picks[a]]))
    && (forall a, b :: 0 <= a < b < |picks| ==> picks[a] < picks[b])
  }

  /** The picked positions are those that give a record. */
  ghost predicate PicksGiving(items: seq<Item>, picks: seq<nat>) {
    forall i: nat :: i < |items| ==> (i in picks <==> GivesRecord(items, i))
  }

  ghost predicate RecordsTold(records: seq<Record>, items: seq<Item>, picks: seq<nat>) {
    RecordsAt(records, items, picks) && PicksGiving(items, picks)
  }

  ghost predicate CatalogueTold(records: seq<Record>, items: seq<Item>) {
    exists picks: seq<nat> :: RecordsTold(records, items, picks)
  }

  ghost predicate Disagrees(items: seq<Item>, regNo: string) {
    exists i, j :: 0 <= i < j < |items| && items[i].regNo == items[j].regNo == regNo
      && items[i].identity != items[j].identity
  }

  ghost predicate Unpriced(items: seq<Item>, regNo: string) {
    exists i :: 0 <= i < |items| && items[i].regNo == regNo && KnownCode(items[i].identity.kind)
      && NavBelow(items[i].identity)
  }

  ghost predicate NavBelow(d: Identity) { exists nav: real :: NavTold(d, Some(nav)) && nav <= 0.0 }

  method FetchCatalogue(items: seq<Item>) returns (r: Result<seq<Record>, PayloadError>)
    ensures r.Ok? <==> Acceptable(items)
    ensures r.Ok? ==> r.value == RecordsOf(items) && CatalogueTold(r.value, items)
    ensures r.Err? ==> r.error.ConflictingDuplicate? || r.error.NonPositiveNav?
    // the error names a number whose items disagree, or one of a known type with a NAV of zero or less
    ensures r.Err? && r.error.ConflictingDuplicate? ==> Disagrees(items, r.error.regNo)
    ensures r.Err? && r.error.NonPositiveNav? ==> Unpriced(items, r.error.regNo)
  {
    hide Remembers; hide Agreeing; hide Priced; hide Listed; hide RecordsOf; hide CatalogueTold;
    hide Disagrees; hide Unpriced;
    CatalogueInFigures(items);
    var records: seq<Record> := [];
    var seen: map<string, Identity> := map[];
    NothingRead();
    for i := 0 to |items|
      invariant Acceptable(items[..i]) && Remembers(seen, items[..i])
      invariant records == RecordsOf(items[..i])
    {
      var item := items[i];
      Reads(seen, items[..i], item);
      WholeAccepts(items, i);
      assert items[..i + 1] == items[..i] + [item];
      if item.regNo in seen {
        if seen[item.regNo] != item.identity {
          DuplicateDisagrees(seen, items, i);
          return Err(ConflictingDuplicate(item.regNo));
        }
        assert seen == seen[item.regNo := item.identity];
      } else {
        seen := seen[item.regNo := item.identity];
        var fundType := FundType(item.identity.kind);
        if fundType.Some? {
          var nav := NavOf(item.identity);
          if nav.Some? && nav.value <= 0.0 {
            ItemUnpriced(items, i);
            return Err(NonPositiveNav(item.regNo));
          }
          records := records + [RecordFor(item, fundType.value)];
        }
      }
    }
    assert items[..|items|] == items;
    r := Ok(records);
  }

  lemma DuplicateDisagrees(seen: map<string, Identity>, items: seq<Item>, i: nat)
    requires i < |items| && Remembers(seen, items[..i])
    requires items[i].regNo in seen && seen[items[i].regNo] != items[i].identity
    ensures Disagrees(items, items[i].regNo)
  {
    assert Listed(items[..i], items[i].regNo);
    var k :| 0 <= k < i && items[..i][k].regNo == items[i].regNo;
    assert items[k].identity == seen[items[i].regNo];
  }

  lemma ItemUnpriced(items: seq<Item>, i: nat)
    requires i < |items| && BadNav(items[i].identity)
    ensures Unpriced(items, items[i].regNo)
  {
    var d := items[i].identity;
    TypeIsTold(d.kind);
    hide FundType; hide KnownCode;
    assert NavTold(d, Some(NavOf(d).value));
    assert NavBelow(d);
  }

  lemma NothingRead()
    ensures Remembers(map[], []) && Acceptable([]) && RecordsOf([]) == []
  {}

  lemma WholeAccepts(items: seq<Item>, i: nat)
    requires i < |items|
    ensures items[..i + 1] == items[..i] + [items[i]]
    ensures Agreeing(items) ==> Agreeing(items[..i + 1])
    ensures Priced(items) ==> Priced(items[..i + 1])
  {}

  lemma ListedAppend(items: seq<Item>, item: Item)
    ensures forall n :: Listed(items + [item], n) <==> Listed(items, n) || n == item.regNo
  {
    var all := items + [item];
    assert all[|items|] == item;
    forall n | Listed(items, n) ensures Listed(all, n) {
      var i :| 0 <= i < |items| && items[i].regNo == n;
      assert all[i].regNo == n;
    }
  }

  lemma AgreeingAppend(seen: map<string, Identity>, items: seq<Item>, item: Item)
    requires Agreeing(items) && Remembers(seen, items)
    ensures Agreeing(items + [item]) <==> (item.regNo in seen ==> seen[item.regNo] == item.identity)
  {
    var all := items + [item];
    assert all[|items|] == item && forall k :: 0 <= k < |items| ==> all[k] == items[k];
    if item.regNo in seen {
      assert Listed(items, item.regNo);
      var k :| 0 <= k < |items| && items[k].regNo == item.regNo;
      assert all[k].regNo == item.regNo && seen[item.regNo] == all[k].identity;
      hide Listed;
      if Agreeing(all) { assert all[k].identity == all[|items|].identity; }
    }
    if item.regNo in seen ==> seen[item.regNo] == item.identity {
      forall i, j | 0 <= i < j < |all| && all[i].regNo == all[j].regNo ensures all[i].identity == all[j].identity {
        if j < |items| {
          assert items[i].regNo == items[j].regNo;
        } else {
          assert items[i].regNo == item.regNo && seen[items[i].regNo] == items[i].identity;
        }
      }
    }
  }

  lemma RemembersAppend(seen: map<string, Identity>, items: seq<Item>, item: Item)
    requires Remembers(seen, items) && (item.regNo in seen ==> seen[item.regNo] == item.identity)
    ensures Remembers(seen[item.regNo := item.identity], items + [item])
  {
    ListedAppend(items, item);
    hide Listed;
    var all := items + [item];
    forall k | 0 <= k < |all| ensures seen[item.regNo := item.identity][all[k].regNo] == all[k].identity {
      if k < |items| { assert all[k] == items[k]; }
    }
  }

  lemma PricedAppend(items: seq<Item>, item: Item)
    ensures Priced(items + [item]) <==> Priced(items) && !BadNav(item.identity)
  {
    var all := items + [item];
    hide BadNav;
    assert all[|items|] == item && forall k :: 0 <= k < |items| ==> all[k] == items[k];
    if Priced(all) {
      forall k | 0 <= k < |items| ensures !BadNav(items[k].identity) { assert !BadNav(all[k].identity); }
    }
  }

  /** One item read: when the payload stays acceptable, what is remembered, and which record is added. */
  lemma Reads(seen: map<string, Identity>, items: seq<Item>, item: Item)
    requires Acceptable(items) && Remembers(seen, items)
    ensures var all, d := items + [item], item.identity;
      && (Agreeing(all) <==> (item.regNo in seen ==> seen[item.regNo] == d))
      && (Agreeing(all) ==> Remembers(seen[item.regNo := d], all))
      && (Priced(all) <==> (item.regNo in seen && Agreeing(all)) || !BadNav(d) )
      && RecordsOf(all) == RecordsOf(items)
           + if item.regNo in seen || FundType(d.kind).None? then [] else [RecordFor(item, FundType(d.kind).value)]
  {
    var all := items + [item];
    AgreeingAppend(seen, items, item);
    PricedAppend(items, item);
    if Agreeing(all) { RemembersAppend(seen, items, item); }
    assert all[..|all| - 1] == items;
    assert item.regNo in seen <==> Listed(items, item.regNo);
    if item.regNo in seen && Agreeing(all) {
      var k :| 0 <= k < |items| && items[k].regNo == item.regNo;
      assert !BadNav(items[k].identity);
    }
  }

  // ----- what the records are

  lemma {:induction false} RecordListed(items: seq<Item>, p: nat)
    requires p < |RecordsOf(items)|
    ensures Listed(items, RecordsOf(items)[p].externalId)
  {
    var n := |items| - 1;
    var rest := items[..n];
    assert items == rest + [items[n]];
    ListedAppend(rest, items[n]);
    if p < |RecordsOf(rest)| { RecordListed(rest, p); }
  }

  /** Accepted records carry distinct external ids, */
  lemma {:induction false} ExternalIdsDistinct(items: seq<Item>)
    ensures var r := RecordsOf(items); forall i, j :: 0 <= i < j < |r| ==> r[i].externalId != r[j].externalId
  {
    if items != [] {
      var rest, r := items[..|items| - 1], RecordsOf(items);
      ExternalIdsDistinct(rest);
      forall i, j | 0 <= i < j < |r| ensures r[i].externalId != r[j].externalId {
        RecordListed(rest, i);
      }
    }
  }

  ghost predicate HasRecord(records: seq<Record>, regNo: string) {
    exists p :: 0 <= p < |records| && records[p].externalId == regNo
  }

  ghost predicate KnownItem(items: seq<Item>, regNo: string) {
    exists i :: 0 <= i < |items| && items[i].regNo == regNo && FundType(items[i].identity.kind).Some?
  }

  /** and they cover every registration number whose type is known. */
  lemma {:induction false} RecordsCover(items: seq<Item>, regNo: string)
    requires Agreeing(items)
    ensures HasRecord(RecordsOf(items), regNo) <==> KnownItem(items, regNo)
  {
    if items == [] { return; }
    var n := |items| - 1;
    var rest, item := items[..n], items[n];
    assert items == rest + [item];
    RepeatIsKnown(items, regNo);
    KnownAppend(rest, item, regNo);
    hide Agreeing; hide Listed; hide KnownItem; hide HasRecord; hide FundType;
    RecordsCover(rest, regNo);
    RecordAppend(RecordsOf(rest), RecordsOf(items), regNo);
  }

  /** A repeated item of a known type was known before. */
  lemma RepeatIsKnown(items: seq<Item>, regNo: string)
    requires Agreeing(items) && items != []
    ensures Agreeing(items[..|items| - 1])
    ensures var n := |items| - 1;
      items[n].regNo == regNo && Listed(items[..n], regNo) && FundType(items[n].identity.kind).Some? ==>
        KnownItem(items[..n], regNo)
  {
    var n := |items| - 1;
    var rest := items[..n];
    assert forall i :: 0 <= i < n ==> rest[i] == items[i];
    if items[n].regNo == regNo && Listed(rest, regNo) {
      var k :| 0 <= k < n && rest[k].regNo == regNo;
      assert items[k].identity == items[n].identity;
    }
  }

  lemma KnownAppend(rest: seq<Item>, item: Item, regNo: string)
    ensures KnownItem(rest + [item], regNo) <==>
      KnownItem(rest, regNo) || (item.regNo == regNo && FundType(item.identity.kind).Some?)
  {
    var all := rest + [item];
    assert all[|rest|] == item;
    if i :| 0 <= i < |rest| && rest[i].regNo == regNo && FundType(rest[i].identity.kind).Some? {
      assert all[i] == rest[i];
    }
  }

  lemma RecordAppend(before: seq<Record>, after: seq<Record>, regNo: string)
    requires before <= after && |after| <= |before| + 1
    ensures HasRecord(after, regNo) <==>
      HasRecord(before, regNo) || (|after| > |before| && after[|before|].externalId == regNo)
  {
    if p :| 0 <= p < |before| && before[p].externalId == regNo { assert after[p].externalId == regNo; }
  }

  // ----- the records in the figures of their items

  lemma TypeIsTold(code: int)
    ensures FundType(code).Some? <==> KnownCode(code)
    ensures FundType(code).Some? ==> TypeTold(code, FundType(code).value)
  {}

  lemma RecordIsTold(item: Item)
    ensures FundType(item.identity.kind).Some? ==> RecordTold(RecordFor(item, FundType(item.identity.kind).value), item)
  {
    TypeIsTold(item.identity.kind);
    hide FundType; hide TypeTold; hide KnownCode;
  }

  lemma LastGivesRecord(rest: seq<Item>, item: Item)
    ensures GivesRecord(rest + [item], |rest|) <==> !Listed(rest, item.regNo) && FundType(item.identity.kind).Some?
  {
    TypeIsTold(item.identity.kind);
    hide FundType; hide KnownCode;
    var all := rest + [item];
    forall j | 0 <= j < |rest| ensures all[j] == rest[j] {}
  }

  lemma EarlierGivesRecord(rest: seq<Item>, item: Item, i: nat)
    requires i < |rest|
    ensures GivesRecord(rest + [item], i) == GivesRecord(rest, i)
  {
    var all := rest + [item];
    forall j | 0 <= j <= i ensures all[j] == rest[j] {}
    hide KnownCode;
  }

  lemma RecordsGrow(records: seq<Record>, rest: seq<Item>, item: Item, picks: seq<nat>, r: Record, keep: bool)
    requires RecordsAt(records, rest, picks) && (keep ==> RecordTold(r, item))
    ensures RecordsAt(if keep then records + [r] else records, rest + [item],
                      if keep then picks + [|rest|] else picks)
  {
    hide RecordTold;
    var all := rest + [item];
    forall a | 0 <= a < |picks| ensures all[picks[a]] == rest[picks[a]] {}
  }

  lemma GivingGrows(records: seq<Record>, rest: seq<Item>, item: Item, picks: seq<nat>, keep: bool)
    requires PicksGiving(rest, picks) && RecordsAt(records, rest, picks)
    requires keep == GivesRecord(rest + [item], |rest|)
    ensures PicksGiving(rest + [item], if keep then picks + [|rest|] else picks)
  {
    hide GivesRecord; hide RecordTold;
    var all, n := rest + [item], |rest|;
    forall i: nat | i < |all| ensures i in (if keep then picks + [n] else picks) <==> GivesRecord(all, i) {
      if i < n { EarlierGivesRecord(rest, item, i); }
    }
  }

  lemma RecordsStep(rest: seq<Item>, item: Item, keep: bool, r: Record)
    requires keep == GivesRecord(rest + [item], |rest|)
    requires keep ==> r == RecordFor(item, FundType(item.identity.kind).value)
    ensures RecordsOf(rest + [item]) == if keep then RecordsOf(rest) + [r] else RecordsOf(rest)
    ensures keep ==> RecordTold(r, item)
  {
    LastGivesRecord(rest, item);
    RecordIsTold(item);
    hide GivesRecord; hide RecordTold; hide FundType; hide Listed; hide RecordFor;
    assert (rest + [item])[..|rest|] == rest;
  }

  lemma KeptIsKnown(rest: seq<Item>, item: Item)
    ensures GivesRecord(rest + [item], |rest|) ==> FundType(item.identity.kind).Some?
  {
    LastGivesRecord(rest, item);
  }

  lemma NextPicks(rest: seq<Item>, item: Item, picks: seq<nat>) returns (more: seq<nat>)
    requires RecordsTold(RecordsOf(rest), rest, picks)
    ensures RecordsTold(RecordsOf(rest + [item]), rest + [item], more)
  {
    KeptIsKnown(rest, item);
    hide GivesRecord; hide RecordsAt; hide PicksGiving; hide RecordTold; hide FundType; hide RecordFor; hide RecordsOf;
    var keep := GivesRecord(rest + [item], |rest|);
    var r := RecordFor(item, if keep then FundType(item.identity.kind).value else "");
    RecordsStep(rest, item, keep, r);
    RecordsGrow(RecordsOf(rest), rest, item, picks, r, keep);
    GivingGrows(RecordsOf(rest), rest, item, picks, keep);
    more := if keep then picks + [|rest|] else picks;
  }

  lemma {:induction false} CataloguePicks(items: seq<Item>) returns (picks: seq<nat>)
    ensures RecordsTold(RecordsOf(items), items, picks)
  {
    picks := [];
    if items == [] { return; }
    hide RecordsTold; hide RecordsOf;
    var n := |items| - 1;
    picks := CataloguePicks(items[..n]);
    picks := NextPicks(items[..n], items[n], picks);
    assert items == items[..n] + [items[n]];
  }

  /**
   The records of a payload in the figures of its items: one for the first item of every registration number with one
   of the seven known codes, in the order of the items, with that item's fields.
   */
  lemma CatalogueInFigures(items: seq<Item>)
    ensures CatalogueTold(RecordsOf(items), items)
  {
    hide RecordsTold; hide RecordsOf;
    var picks := CataloguePicks(items);
  }

  /** An item of a known type is priced: its NAV is positive or missing. */
  ghost predicate PricedItem(item: Item) {
    KnownCode(item.identity.kind) ==> forall nav: real :: NavTold(item.identity, Some(nav)) ==> nav > 0.0
  }

  lemma PricedIsTold(item: Item)
    ensures PricedItem(item) <==> !BadNav(item.identity)
  {
    var d := item.identity;
    TypeIsTold(d.kind);
    hide FundType; hide KnownCode; hide TypeTold;
    if NavOf(d).Some? { assert NavTold(d, Some(NavOf(d).value)); }
  }

  /** Two items with one registration number, in any order. */
  ghost predicate ItemsAgree(x: Item, y: Item) { x.regNo == y.regNo ==> x.identity == y.identity }

  /** Exactly the payloads are accepted whose repeated numbers agree and whose items of known types are priced. */
  lemma AcceptanceInFigures(items: seq<Item>)
    ensures Acceptable(items) <==>
      && (forall i, j :: 0 <= i < |items| && 0 <= j < |items| ==> ItemsAgree(items[i], items[j]))
      && (forall i :: 0 <= i < |items| ==> PricedItem(items[i]))
  {
    hide PricedItem; hide BadNav;
    forall i | 0 <= i < |items| ensures PricedItem(items[i]) <==> !BadNav(items[i].identity) {
      PricedIsTold(items[i]);
    }
    if Acceptable(items) {
      forall i, j | 0 <= i < |items| && 0 <= j < |items| ensures ItemsAgree(items[i], items[j]) {}
    }
    if forall i, j :: 0 <= i < |items| && 0 <= j < |items| ==> ItemsAgree(items[i], items[j]) {
      forall i, j | 0 <= i < j < |items| && items[i].regNo == items[j].regNo
        ensures items[i].identity == items[j].identity
      {
        assert ItemsAgree(items[i], items[j]);
      }
    }
  }
}
