/**
 The table of fund NAV rows: what is stored for a fund and a day, which rows a history adds, and when the
 rows stay unique. Both ways of ingesting history write through it.
 */
module NavTable {
  import opened Common

  /** A point in time, in seconds, and the offset from UTC of the clock that tells it. */
  datatype Moment = Moment(at: int, offset: int)

  /** An upstream observation. */
  datatype Observation = Observation(observedAt: Moment, nav: real, netAssets: Option<real>, quality: string)

  datatype NavRow = NavRow(
    fundId: nat, day: int, observedAt: Moment, nav: real, netAssets: Option<real>, source: Option<string>,
    quality: string)

  /** For whom rows are written, and whether the writer keeps the observed net assets. */
  datatype Owner = Owner(id: nat, source: Option<string>, keepsAssets: bool)

  /** The calendar day of a moment, on its own clock. */
  function DayOf(m: Moment): int { (m.at + m.offset) / SECONDS_PER_DAY }

  function Day(r: Observation): int { DayOf(r.observedAt) }

  predicate Eligible(r: Observation, fromDate: Option<int>, latest: Option<int>) {
    && !(fromDate.Some? && Day(r) < fromDate.value)
    && !(latest.Some? && Day(r) <= latest.value)
  }

  function RowFor(o: Owner, r: Observation): NavRow {
    NavRow(o.id, Day(r), r.observedAt, r.nav, if o.keepsAssets then r.netAssets else None, o.source, r.quality)
  }

  predicate HasDay(rows: seq<NavRow>, fundId: nat, day: int) {
    exists i :: 0 <= i < |rows| && rows[i].fundId == fundId && rows[i].day == day
  }

  /** The rows one history adds to a table: what is stored already, or seen pending, is skipped. */
  function NewRows(o: Owner, history: seq<Observation>, stored: seq<NavRow>, fromDate: Option<int>,
                   latest: Option<int>, autoflush: bool): (rows: seq<NavRow>)
    ensures forall i :: 0 <= i < |rows| ==> rows[i].fundId == o.id
  {
    if history == [] then []
    else
      var r := history[|history| - 1];
      var rest := NewRows(o, history[..|history| - 1], stored, fromDate, latest, autoflush);
      if Eligible(r, fromDate, latest) && !HasDay(stored, o.id, Day(r)) && !(autoflush && HasDay(rest, o.id, Day(r)))
      then rest + [RowFor(o, r)] else rest
  }

  function MaxDay(a: Option<int>, day: int): Option<int> {
    if a.None? then Some(day) else Some(MaxInt(a.value, day))
  }

  function LastDate(history: seq<Observation>, fromDate: Option<int>, latest: Option<int>,
                    start: Option<int>): Option<int> {
    if history == [] then start
    else
      var rest := LastDate(history[..|history| - 1], fromDate, latest, start);
      var r := history[|history| - 1];
      if Eligible(r, fromDate, latest) then MaxDay(rest, Day(r)) else rest
  }

  lemma HasDayConcat(a: seq<NavRow>, b: seq<NavRow>, fundId: nat, day: int)
    ensures HasDay(a + b, fundId, day) == (HasDay(a, fundId, day) || HasDay(b, fundId, day))
  {
    if HasDay(b, fundId, day) {
      var i :| 0 <= i < |b| && b[i].fundId == fundId && b[i].day == day;
      assert (a + b)[|a| + i] == b[i];
    }
    if HasDay(a, fundId, day) {
      var i :| 0 <= i < |a| && a[i].fundId == fundId && a[i].day == day;
      assert (a + b)[i] == a[i];
    }
  }

  // ----- one fund at a time

  lemma HasDayPrefix(a: seq<NavRow>, b: seq<NavRow>, id: nat, day: int)
    requires a <= b && HasDay(a, id, day)
    ensures HasDay(b, id, day)
  {
    assert b == a + b[|a|..];
    HasDayConcat(a, b[|a|..], id, day);
  }

  /** The rows of one fund, in table order. */
  function RowsOf(nav: seq<NavRow>, id: nat): (rows: seq<NavRow>)
    ensures forall i :: 0 <= i < |rows| ==> rows[i].fundId == id
  {
    if nav == [] then []
    else
      var rest := RowsOf(nav[..|nav| - 1], id);
      if nav[|nav| - 1].fundId == id then rest + [nav[|nav| - 1]] else rest
  }

  lemma {:induction false} RowsOfConcat(a: seq<NavRow>, b: seq<NavRow>, id: nat)
    ensures RowsOf(a + b, id) == RowsOf(a, id) + RowsOf(b, id)
  {
    if b == [] {
      assert a + b == a;
    } else {
      assert (a + b)[..|a + b| - 1] == a + b[..|b| - 1];
      RowsOfConcat(a, b[..|b| - 1], id);
    }
  }

  lemma {:induction false} RowsOfOwn(rows: seq<NavRow>, id: nat, other: nat)
    requires forall i :: 0 <= i < |rows| ==> rows[i].fundId == id
    ensures RowsOf(rows, other) == if other == id then rows else []
  {
    if rows != [] {
      RowsOfOwn(rows[..|rows| - 1], id, other);
      assert rows == rows[..|rows| - 1] + [rows[|rows| - 1]];
    }
  }

  /** Whether a day is stored for a fund depends on that fund's rows only. */
  lemma {:induction false} HasDayOfOwnRows(nav: seq<NavRow>, id: nat, day: int)
    ensures HasDay(nav, id, day) == HasDay(RowsOf(nav, id), id, day)
  {
    if nav != [] {
      var rest, last := nav[..|nav| - 1], nav[|nav| - 1];
      HasDayOfOwnRows(rest, id, day);
      HasDayConcat(rest, [last], id, day);
      HasDayConcat(RowsOf(rest, id), [last], id, day);
      assert nav == rest + [last];
      assert HasDay([last], id, day) == ([last][0].fundId == id && [last][0].day == day);
    }
  }

  lemma {:induction false} NewRowsOfOwnRows(o: Owner, history: seq<Observation>, a: seq<NavRow>, b: seq<NavRow>,
                                            from: Option<int>, latest: Option<int>, autoflush: bool)
    requires RowsOf(a, o.id) == RowsOf(b, o.id)
    ensures NewRows(o, history, a, from, latest, autoflush) == NewRows(o, history, b, from, latest, autoflush)
  {
    if history != [] {
      NewRowsOfOwnRows(o, history[..|history| - 1], a, b, from, latest, autoflush);
      HasDayOfOwnRows(a, o.id, Day(history[|history| - 1]));
      HasDayOfOwnRows(b, o.id, Day(history[|history| - 1]));
    }
  }

  // ----- uniqueness of rows

  /** At most one row for a fund and a day. */
  ghost predicate UniqueRows(nav: seq<NavRow>) {
    forall i, j :: 0 <= i < j < |nav| ==> nav[i].fundId != nav[j].fundId || nav[i].day != nav[j].day
  }

  lemma UniqueAppend(nav: seq<NavRow>, row: NavRow)
    ensures UniqueRows(nav + [row]) <==> UniqueRows(nav) && !HasDay(nav, row.fundId, row.day)
  {
    var t := nav + [row];
    if UniqueRows(t) {
      forall i, j | 0 <= i < j < |nav| ensures nav[i].fundId != nav[j].fundId || nav[i].day != nav[j].day {
        assert t[i] == nav[i] && t[j] == nav[j];
      }
      forall i | 0 <= i < |nav| ensures nav[i].fundId != row.fundId || nav[i].day != row.day {
        assert t[i] == nav[i] && t[|nav|] == row;
      }
    }
  }

  lemma {:induction false} UniqueGivesOwnRows(nav: seq<NavRow>, id: nat)
    requires UniqueRows(nav)
    ensures UniqueRows(RowsOf(nav, id))
  {
    if nav != [] {
      var rest, last := nav[..|nav| - 1], nav[|nav| - 1];
      assert nav == rest + [last];
      UniqueAppend(rest, last);
      hide UniqueRows; hide HasDay;
      UniqueGivesOwnRows(rest, id);
      HasDayOfOwnRows(rest, last.fundId, last.day);
      UniqueAppend(RowsOf(rest, id), last);
    }
  }

  lemma {:induction false} OwnRowsGiveUnique(nav: seq<NavRow>)
    requires UniqueInEachFund(nav)
    ensures UniqueRows(nav)
  {
    if nav != [] {
      var rest, last := nav[..|nav| - 1], nav[|nav| - 1];
      assert nav == rest + [last];
      UniqueAppend(rest, last);
      hide UniqueRows; hide HasDay;
      forall id: nat ensures UniqueRows(RowsOf(rest, id)) {
        assert UniqueRows(RowsOf(nav, id));
        UniqueAppend(RowsOf(rest, id), last);
      }
      OwnRowsGiveUnique(rest);
      assert UniqueRows(RowsOf(nav, last.fundId));
      UniqueAppend(RowsOf(rest, last.fundId), last);
      HasDayOfOwnRows(rest, last.fundId, last.day);
    }
  }

  ghost predicate UniqueInEachFund(nav: seq<NavRow>) {
    forall id: nat :: UniqueRows(RowsOf(nav, id))
  }

  lemma UniqueByFund(nav: seq<NavRow>)
    ensures UniqueRows(nav) <==> UniqueInEachFund(nav)
  {
    hide UniqueRows;
    if UniqueRows(nav) {
      forall id: nat ensures UniqueRows(RowsOf(nav, id)) { UniqueGivesOwnRows(nav, id); }
      assert UniqueInEachFund(nav);
    }
    if UniqueInEachFund(nav) { OwnRowsGiveUnique(nav); }
  }

  /** Two usable records of the history fall on one day only if that day is stored already. */
  ghost predicate DistinctNewDays(o: Owner, history: seq<Observation>, stored: seq<NavRow>, from: Option<int>) {
    forall i, j :: 0 <= i < j < |history| && Day(history[i]) == Day(history[j]) && Eligible(history[i], from, None) ==>
      HasDay(stored, o.id, Day(history[i]))
  }

  lemma {:induction false} DaysOfNewRows(o: Owner, history: seq<Observation>, stored: seq<NavRow>, from: Option<int>,
                                         autoflush: bool, day: int)
    ensures HasDay(NewRows(o, history, stored, from, None, autoflush), o.id, day) <==>
      !HasDay(stored, o.id, day)
      && exists i :: 0 <= i < |history| && Day(history[i]) == day && Eligible(history[i], from, None)
  {
    if history != [] {
      var rest, r := history[..|history| - 1], history[|history| - 1];
      DaysOfNewRows(o, rest, stored, from, autoflush, day);
      var rows := NewRows(o, rest, stored, from, None, autoflush);
      HasDayConcat(rows, [RowFor(o, r)], o.id, day);
      assert HasDay([RowFor(o, r)], o.id, day) == (Day(r) == day) by {
        assert [RowFor(o, r)][0] == RowFor(o, r);
      }
      hide HasDay; hide Eligible; hide Day;
      assert (exists i :: 0 <= i < |history| && Day(history[i]) == day && Eligible(history[i], from, None))
        <==> (Day(r) == day && Eligible(r, from, None))
             || exists i :: 0 <= i < |rest| && Day(rest[i]) == day && Eligible(rest[i], from, None) by {
        if i :| 0 <= i < |rest| && Day(rest[i]) == day && Eligible(rest[i], from, None) {
          assert history[i] == rest[i];
        }
      }
    }
  }

  /** With autoflush the added rows have distinct days; without it, exactly when the history does. */
  lemma {:induction false} NewRowsUniqueIff(o: Owner, history: seq<Observation>, stored: seq<NavRow>, from: Option<int>,
                                            autoflush: bool)
    ensures UniqueRows(NewRows(o, history, stored, from, None, autoflush))
      <==> autoflush || DistinctNewDays(o, history, stored, from)
  {
    if history != [] {
      var rest, r := history[..|history| - 1], history[|history| - 1];
      NewRowsUniqueIff(o, rest, stored, from, autoflush);
      var rows := NewRows(o, rest, stored, from, None, autoflush);
      DaysOfNewRows(o, rest, stored, from, autoflush, Day(r));
      UniqueAppend(rows, RowFor(o, r));
      SplitDistinct(o, rest, r, stored, from);
      assert history == rest + [r];
    }
  }

  lemma SplitDistinct(o: Owner, rest: seq<Observation>, r: Observation, stored: seq<NavRow>, from: Option<int>)
    ensures DistinctNewDays(o, rest + [r], stored, from) <==>
      && DistinctNewDays(o, rest, stored, from)
      && (Eligible(r, from, None) && !HasDay(stored, o.id, Day(r)) ==>
            !exists i :: 0 <= i < |rest| && Day(rest[i]) == Day(r) && Eligible(rest[i], from, None))
  {
    var history := rest + [r];
    hide HasDay;
    if DistinctNewDays(o, history, stored, from) {
      forall i, j | 0 <= i < j < |rest| && Day(rest[i]) == Day(rest[j]) && Eligible(rest[i], from, None)
        ensures HasDay(stored, o.id, Day(rest[i]))
      {
        assert history[i] == rest[i] && history[j] == rest[j];
      }
      if i :| 0 <= i < |rest| && Day(rest[i]) == Day(r) && Eligible(rest[i], from, None) {
        assert history[i] == rest[i] && history[|rest|] == r;
      }
    }
  }

  /** Two unique tables make a unique table when the second brings no day the first has. */
  lemma UniqueConcat(a: seq<NavRow>, b: seq<NavRow>)
    ensures UniqueRows(a + b) <==>
      UniqueRows(a) && UniqueRows(b) && forall i :: 0 <= i < |b| ==> !HasDay(a, b[i].fundId, b[i].day)
  {
    var t := a + b;
    if UniqueRows(t) {
      forall i, j | 0 <= i < j < |a| ensures a[i].fundId != a[j].fundId || a[i].day != a[j].day {
        assert t[i] == a[i] && t[j] == a[j];
      }
      forall i, j | 0 <= i < j < |b| ensures b[i].fundId != b[j].fundId || b[i].day != b[j].day {
        assert t[|a| + i] == b[i] && t[|a| + j] == b[j];
      }
      forall i, k | 0 <= i < |b| && 0 <= k < |a| ensures a[k].fundId != b[i].fundId || a[k].day != b[i].day {
        assert t[k] == a[k] && t[|a| + i] == b[i];
      }
    }
  }
}
