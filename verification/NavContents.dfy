/**
 What the stored NAV rows hold, field by field: which records of a history get a row, in which order, and what
 last date a checkpoint keeps.
 */
module NavContents {
  import opened Common
  import opened NavTable

  /** The date a record carries on its own clock, counted in days. */
  ghost function LocalDay(r: Observation): int { (r.observedAt.at + r.observedAt.offset) / 86400 }

  /** A record the job asks for: not before its first date, and after the last date of an earlier turn. */
  ghost predicate Usable(r: Observation, from: Option<int>, latest: Option<int>) {
    && (from.Some? ==> LocalDay(r) >= from.value)
    && (latest.Some? ==> LocalDay(r) > latest.value)
  }

  ghost predicate DayTaken(stored: seq<NavRow>, fundId: nat, day: int) {
    exists i :: 0 <= i < |stored| && stored[i].fundId == fundId && stored[i].day == day
  }

  /** A row that holds a record, for an owner. */
  ghost predicate HoldsRecord(row: NavRow, o: Owner, r: Observation) {
    && row.fundId == o.id && row.source == o.source
    && row.nav == r.nav && row.observedAt == r.observedAt && row.quality == r.quality
    && row.day == LocalDay(r)
    && row.netAssets == if o.keepsAssets then r.netAssets else None
  }

  /** With flushing, only the first usable record of a new day; without it, every one. */
  ghost predicate GetsRow(o: Owner, history: seq<Observation>, i: nat, stored: seq<NavRow>, from: Option<int>,
                          latest: Option<int>, autoflush: bool)
    requires i < |history|
  {
    && Usable(history[i], from, latest)
    && !DayTaken(stored, o.id, LocalDay(history[i]))
    && (autoflush ==> forall j :: 0 <= j < i ==> LocalDay(history[j]) != LocalDay(history[i]))
  }

  ghost predicate IncreasingPicks(picks: seq<nat>, n: nat) {
    && (forall a :: 0 <= a < |picks| ==> picks[a] < n)
    && (forall a, b :: 0 <= a < b < |picks| ==> picks[a] < picks[b])
  }

  ghost predicate HoldsAll(rows: seq<NavRow>, o: Owner, history: seq<Observation>, picks: seq<nat>) {
    && |rows| == |picks|
    && forall a :: 0 <= a < |picks| ==> picks[a] < |history| && HoldsRecord(rows[a], o, history[picks[a]])
  }

  /** The picked positions are exactly those of the records that get a row. */
  ghost predicate PicksThose(o: Owner, history: seq<Observation>, picks: seq<nat>, stored: seq<NavRow>,
                             from: Option<int>, latest: Option<int>, autoflush: bool) {
    forall i: nat :: i < |history| ==> (i in picks <==> GetsRow(o, history, i, stored, from, latest, autoflush))
  }

  /** The rows hold, in the order of the history, exactly the records that get one. */
  ghost predicate HoldsExactly(rows: seq<NavRow>, o: Owner, history: seq<Observation>, picks: seq<nat>,
                               stored: seq<NavRow>, from: Option<int>, latest: Option<int>, autoflush: bool) {
    && IncreasingPicks(picks, |history|)
    && HoldsAll(rows, o, history, picks)
    && PicksThose(o, history, picks, stored, from, latest, autoflush)
  }

  lemma PicksAppend(rows: seq<NavRow>, row: NavRow, o: Owner, history: seq<Observation>, r: Observation,
                    picks: seq<nat>, keep: bool)
    requires IncreasingPicks(picks, |history|) && HoldsAll(rows, o, history, picks)
    requires keep ==> HoldsRecord(row, o, r)
    ensures var more, all := if keep then picks + [|history|] else picks, history + [r];
      IncreasingPicks(more, |all|) && HoldsAll(if keep then rows + [row] else rows, o, all, more)
  {
    hide HoldsRecord;
    var all := history + [r];
    forall a | 0 <= a < |picks| ensures all[picks[a]] == history[picks[a]] {}
  }

  lemma GetsRowAppend(o: Owner, history: seq<Observation>, r: Observation, i: nat, stored: seq<NavRow>,
                      from: Option<int>, latest: Option<int>, autoflush: bool)
    requires i < |history|
    ensures GetsRow(o, history + [r], i, stored, from, latest, autoflush)
         == GetsRow(o, history, i, stored, from, latest, autoflush)
  {
    var all := history + [r];
    forall j | 0 <= j <= i ensures all[j] == history[j] {}
    hide Usable; hide DayTaken; hide LocalDay;
  }

  lemma ThoseAppend(o: Owner, history: seq<Observation>, r: Observation, picks: seq<nat>, stored: seq<NavRow>,
                    from: Option<int>, latest: Option<int>, autoflush: bool, keep: bool)
    requires PicksThose(o, history, picks, stored, from, latest, autoflush) && IncreasingPicks(picks, |history|)
    requires keep == GetsRow(o, history + [r], |history|, stored, from, latest, autoflush)
    ensures PicksThose(o, history + [r], if keep then picks + [|history|] else picks, stored, from, latest, autoflush)
  {
    hide GetsRow;
    var all, n := history + [r], |history|;
    forall i: nat | i < |all|
      ensures i in (if keep then picks + [n] else picks) <==> GetsRow(o, all, i, stored, from, latest, autoflush)
    {
      if i < n { GetsRowAppend(o, history, r, i, stored, from, latest, autoflush); }
    }
  }

  /** Among the records of a usable new day the first one gets a row. */
  lemma {:induction false} FirstOfDayGetsRow(o: Owner, history: seq<Observation>, j: nat, stored: seq<NavRow>,
                                             from: Option<int>, latest: Option<int>, autoflush: bool) returns (i: nat)
    requires j < |history| && Usable(history[j], from, latest) && !DayTaken(stored, o.id, LocalDay(history[j]))
    ensures i <= j && LocalDay(history[i]) == LocalDay(history[j])
    ensures GetsRow(o, history, i, stored, from, latest, autoflush)
    decreases j
  {
    i := j;
    if k: nat :| k < j && LocalDay(history[k]) == LocalDay(history[j]) {
      i := FirstOfDayGetsRow(o, history, k, stored, from, latest, autoflush);
    }
  }

  /** Whether the rows so far show a day is whether an earlier record is on it, for a day that is new and usable. */
  lemma RowsShowDay(rows: seq<NavRow>, o: Owner, history: seq<Observation>, picks: seq<nat>, stored: seq<NavRow>,
                    from: Option<int>, latest: Option<int>, autoflush: bool, r: Observation)
    requires HoldsExactly(rows, o, history, picks, stored, from, latest, autoflush)
    requires Usable(r, from, latest) && !DayTaken(stored, o.id, LocalDay(r))
    ensures HasDay(rows, o.id, LocalDay(r)) <==> exists j :: 0 <= j < |history| && LocalDay(history[j]) == LocalDay(r)
  {
    hide GetsRow; hide DayTaken;
    if HasDay(rows, o.id, LocalDay(r)) {
      var a :| 0 <= a < |rows| && rows[a].fundId == o.id && rows[a].day == LocalDay(r);
      assert HoldsRecord(rows[a], o, history[picks[a]]);
    }
    if j: nat :| j < |history| && LocalDay(history[j]) == LocalDay(r) {
      var i := FirstOfDayGetsRow(o, history, j, stored, from, latest, autoflush);
      assert i in picks;
      var a :| 0 <= a < |picks| && picks[a] == i;
      assert HoldsRecord(rows[a], o, history[i]);
    }
  }

  /** The program's decision on the next record, in figures. */
  lemma NextGetsRow(rows: seq<NavRow>, o: Owner, history: seq<Observation>, picks: seq<nat>, stored: seq<NavRow>,
                    from: Option<int>, latest: Option<int>, autoflush: bool, r: Observation)
    requires HoldsExactly(rows, o, history, picks, stored, from, latest, autoflush)
    ensures (Eligible(r, from, latest) && !HasDay(stored, o.id, Day(r)) && !(autoflush && HasDay(rows, o.id, Day(r))))
      <==> GetsRow(o, history + [r], |history|, stored, from, latest, autoflush)
    ensures HoldsRecord(RowFor(o, r), o, r)
  {
    assert Day(r) == LocalDay(r) && Eligible(r, from, latest) == Usable(r, from, latest);
    assert HasDay(stored, o.id, Day(r)) == DayTaken(stored, o.id, LocalDay(r));
    if Usable(r, from, latest) && !DayTaken(stored, o.id, LocalDay(r)) {
      RowsShowDay(rows, o, history, picks, stored, from, latest, autoflush, r);
    }
    var all := history + [r];
    forall j | 0 <= j < |history| ensures all[j] == history[j] {}
    hide HoldsExactly; hide HasDay; hide DayTaken; hide LocalDay; hide Day; hide Eligible; hide Usable; hide RowFor;
  }

  lemma {:induction false} NewRowsPicks(o: Owner, history: seq<Observation>, stored: seq<NavRow>, from: Option<int>,
                                        latest: Option<int>, autoflush: bool) returns (picks: seq<nat>)
    ensures HoldsExactly(NewRows(o, history, stored, from, latest, autoflush), o, history, picks, stored, from, latest,
                         autoflush)
  {
    picks := [];
    if history != [] {
      var rest, r := history[..|history| - 1], history[|history| - 1];
      assert history == rest + [r];
      picks := NewRowsPicks(o, rest, stored, from, latest, autoflush);
      var rows := NewRows(o, rest, stored, from, latest, autoflush);
      var keep := GetsRow(o, history, |rest|, stored, from, latest, autoflush);
      NextGetsRow(rows, o, rest, picks, stored, from, latest, autoflush, r);
      hide GetsRow; hide HasDay; hide Eligible; hide RowFor; hide HoldsRecord;
      PicksAppend(rows, RowFor(o, r), o, rest, r, picks, keep);
      ThoseAppend(o, rest, r, picks, stored, from, latest, autoflush, keep);
      hide IncreasingPicks; hide HoldsAll; hide PicksThose;
      if keep { picks := picks + [|rest|]; }
    }
  }

  /** The added rows hold exactly the records of a history that get a row, whatever program wrote them. */
  ghost predicate StoresHistory(rows: seq<NavRow>, o: Owner, history: seq<Observation>, stored: seq<NavRow>,
                                from: Option<int>, latest: Option<int>, autoflush: bool) {
    exists picks: seq<nat> :: HoldsExactly(rows, o, history, picks, stored, from, latest, autoflush)
  }

  /**
   The rows a history adds, field by field: each holds the NAV, moment, quality, source and day of one record, in
   the order of the records; with flushing those are the first usable records of their new days, without it all
   usable records of new days.
   */
  lemma RowsHoldRecords(o: Owner, history: seq<Observation>, stored: seq<NavRow>, from: Option<int>,
                        latest: Option<int>, autoflush: bool)
    ensures StoresHistory(NewRows(o, history, stored, from, latest, autoflush), o, history, stored, from, latest,
                          autoflush)
  {
    hide HoldsExactly; hide NewRows;
    var picks := NewRowsPicks(o, history, stored, from, latest, autoflush);
  }

  // ----- the last date

  /** The latest date of a usable record; without one, the date there was before. */
  ghost predicate IsLatestDate(last: Option<int>, history: seq<Observation>, from: Option<int>, latest: Option<int>) {
    && (forall i :: 0 <= i < |history| && Usable(history[i], from, latest) ==>
          last.Some? && LocalDay(history[i]) <= last.value)
    && (last == latest || HasUsableOn(history, from, latest, last))
  }

  ghost predicate HasUsableOn(history: seq<Observation>, from: Option<int>, latest: Option<int>, day: Option<int>) {
    exists i :: 0 <= i < |history| && Usable(history[i], from, latest) && Some(LocalDay(history[i])) == day
  }

  lemma LatestDateAppend(last: Option<int>, rest: seq<Observation>, r: Observation, from: Option<int>,
                         latest: Option<int>)
    requires IsLatestDate(last, rest, from, latest)
    requires last.Some? ==> latest.None? || last.value >= latest.value
    requires last.None? ==> latest.None?
    ensures var next := if Usable(r, from, latest) then MaxDay(last, LocalDay(r)) else last;
      && IsLatestDate(next, rest + [r], from, latest)
      && (latest.Some? ==> next.Some? && next.value >= latest.value)
  {
    hide LocalDay; hide Usable;
    var all := rest + [r];
    forall i | 0 <= i < |rest| ensures all[i] == rest[i] {}
    assert all[|rest|] == r;
    if HasUsableOn(rest, from, latest, last) {
      var i :| 0 <= i < |rest| && Usable(rest[i], from, latest) && Some(LocalDay(rest[i])) == last;
      assert Usable(all[i], from, latest) && Some(LocalDay(all[i])) == last;
    }
  }

  lemma {:induction false} LastDateIsLatest(history: seq<Observation>, from: Option<int>, latest: Option<int>)
    ensures IsLatestDate(LastDate(history, from, latest, latest), history, from, latest)
    ensures latest.Some? ==> LastDate(history, from, latest, latest).Some?
    ensures latest.Some? ==> LastDate(history, from, latest, latest).value >= latest.value
  {
    if history == [] { return; }
    var rest, r := history[..|history| - 1], history[|history| - 1];
    assert history == rest + [r];
    LastDateIsLatest(rest, from, latest);
    assert Day(r) == LocalDay(r) && Eligible(r, from, latest) == Usable(r, from, latest);
    LatestDateAppend(LastDate(rest, from, latest, latest), rest, r, from, latest);
    hide Day; hide LocalDay; hide Eligible; hide Usable; hide IsLatestDate; hide MaxDay;
  }
}
