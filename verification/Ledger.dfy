/** The trades table and the daily statistics kept beside it: partial legs are booked and the day is
    re-derived from the closed trades, closing is idempotent. */
module Ledger {
  import opened Basics

  datatype Status = Open | Tp1Hit | Tp2Hit | Closed | Unknown

  datatype Row = Row(id: string, status: Status, closedAt: Option<string>, realized: Option<real>, pnl: Option<real>) {
    predicate Active() { status.Open? || status.Tp1Hit? || status.Tp2Hit? }

    /** What a report counts: the realized column if present, else the other, else 0. */
    function Booked(): real {
      if realized.Some? then realized.value else if pnl.Some? then pnl.value else 0.0
    }

    /** What a repeated close answers: the first of the two columns that is not 0. */
    function Stored(): real {
      if realized.Some? && realized.value != 0.0 then realized.value
      else if pnl.Some? then pnl.value else 0.0
    }

    predicate ClosedOn(date: string) {
      status.Closed? && closedAt.Some? && date <= closedAt.value
    }
  }

  datatype DayStats = DayStats(total: real, closes: nat)

  function Day(closedAt: string): string {
    if |closedAt| < 10 then closedAt else closedAt[..10]
  }

  /** Sum and number of the trades closed on a day. */
  function Tally(rows: seq<Row>, date: string): DayStats {
    if rows == [] then DayStats(0.0, 0)
    else
      var rest := Tally(rows[..|rows| - 1], date);
      var row := rows[|rows| - 1];
      if row.ClosedOn(date) then DayStats(rest.total + row.Booked(), rest.closes + 1) else rest
  }

  function Share(row: Row, date: string): DayStats {
    if row.ClosedOn(date) then DayStats(row.Booked(), 1) else DayStats(0.0, 0)
  }

  /** Replacing one row replaces its share in the tally. */
  lemma {:induction false} ReplaceInTally(rows: seq<Row>, i: nat, row: Row, date: string)
    requires i < |rows|
    ensures Tally(rows[i := row], date).total
            == Tally(rows, date).total - Share(rows[i], date).total + Share(row, date).total
    ensures Tally(rows[i := row], date).closes
            == Tally(rows, date).closes - Share(rows[i], date).closes + Share(row, date).closes
  {
    var n := |rows| - 1;
    if i == n {
      assert rows[i := row][..n] == rows[..n];
    } else {
      assert rows[i := row][..n] == rows[..n][i := row];
      ReplaceInTally(rows[..n], i, row, date);
    }
  }

  ghost predicate Balanced(rows: seq<Row>, days: map<string, DayStats>, date: string) {
    date in days ==> days[date] == Tally(rows, date)
  }

  /** Every day on record shows exactly the trades closed that day. */
  ghost predicate AllBalanced(rows: seq<Row>, days: map<string, DayStats>) {
    forall date | date in days :: Balanced(rows, days, date)
  }

  ghost predicate UniqueIds(rows: seq<Row>) {
    forall i, j | 0 <= i < j < |rows| :: rows[i].id != rows[j].id
  }

  /** A row that is not closed counts nowhere, so changing it leaves every tally alone. */
  lemma OpenRowsDoNotCount(rows: seq<Row>, i: nat, row: Row)
    requires i < |rows| && !rows[i].status.Closed? && !row.status.Closed?
    ensures forall date :: Tally(rows[i := row], date) == Tally(rows, date)
  {
    forall date ensures Tally(rows[i := row], date) == Tally(rows, date) {
      ReplaceInTally(rows, i, row, date);
    }
  }

  ghost predicate StillOpen(rows: seq<Row>, id: string) {
    forall i | 0 <= i < |rows| :: rows[i].id == id ==> !rows[i].status.Closed?
  }

  /** A leg booked on a trade that was closed on another day leaves that day balanced exactly when the
      trade's PnL did not change. */
  lemma LateLegUnbalances(rows: seq<Row>, days: map<string, DayStats>, i: nat, cumulative: real, date: string)
    requires i < |rows| && rows[i].ClosedOn(date) && date in days && Balanced(rows, days, date)
    ensures Balanced(rows[i := rows[i].(pnl := Some(cumulative), realized := Some(cumulative))], days, date)
            <==> cumulative == rows[i].Booked()
  {
    ReplaceInTally(rows, i, rows[i].(pnl := Some(cumulative), realized := Some(cumulative)), date);
  }

  /** The row a close leaves behind. */
  function ClosedRow(row: Row, closedAt: string, pnl: real): Row {
    row.(status := Closed, closedAt := Some(closedAt), realized := Some(pnl), pnl := Some(pnl))
  }

  /** A close adds the trade and its PnL to the day of its closing time, and nothing to any other; while
      open, the trade counted nowhere. */
  lemma CloseAddsToDay(rows: seq<Row>, i: nat, closedAt: string, pnl: real, date: string)
    requires i < |rows| && (rows[i].status == Open || rows[i].status == Tp1Hit || rows[i].status == Tp2Hit)
    requires |closedAt| >= 10 && |date| == 10
    ensures var (before, after) := (Tally(rows, date), Tally(rows[i := ClosedRow(rows[i], closedAt, pnl)], date));
            after == if date == closedAt[..10] then DayStats(before.total + pnl, before.closes + 1) else before
  {
    ReplaceInTally(rows, i, ClosedRow(rows[i], closedAt, pnl), date);
    assert date <= closedAt <==> date == closedAt[..10];
  }

  /** What a closed trade counts with: its realized PnL, or the other column where there is none, on the day
      its closing time starts with; a trade that is not closed, or has no closing time, does not count. */
  lemma OneTradeCounts(row: Row, date: string)
    requires |date| == 10
    ensures Tally([row], date)
            == if row.status == Closed && row.closedAt.Some? && |row.closedAt.value| >= 10
                  && row.closedAt.value[..10] == date
               then DayStats(if row.realized.Some? then row.realized.value
                             else if row.pnl.Some? then row.pnl.value else 0.0, 1)
               else DayStats(0.0, 0)
  {
    assert [row][..0] == [];
    if row.closedAt.Some? {
      var at := row.closedAt.value;
      assert date <= at <==> |at| >= 10 && at[..10] == date;
    }
  }

  /** All trades together count as each alone. */
  lemma {:induction false} TallyAddsUp(a: seq<Row>, b: seq<Row>, date: string)
    ensures Tally(a + b, date).total == Tally(a, date).total + Tally(b, date).total
    ensures Tally(a + b, date).closes == Tally(a, date).closes + Tally(b, date).closes
  {
    if b == [] {
      assert a + b == a;
    } else {
      TallyAddsUp(a, b[..|b| - 1], date);
      assert (a + b)[..|a + b| - 1] == a + b[..|b| - 1];
    }
  }

  /** What a repeated close answers with: a realized PnL other than 0, else the other column, else 0. */
  lemma RepeatedCloseAnswers(row: Row)
    ensures row.realized.Some? && row.realized.value != 0.0 ==> row.Stored() == row.realized.value
    ensures (row.realized.None? || row.realized.value == 0.0) && row.pnl.Some? ==> row.Stored() == row.pnl.value
    ensures (row.realized.None? || row.realized.value == 0.0) && row.pnl.None? ==> row.Stored() == 0.0
  {}

  class LedgerTables {
    var rows: seq<Row>
    var days: map<string, DayStats>

    ghost predicate Valid()
      reads this
    {
      UniqueIds(rows) && forall date | date in days :: |date| == 10
    }

    constructor ()
      ensures Valid() && rows == [] && days == map[]
    {
      rows, days := [], map[];
    }

    method Find(id: string) returns (i: nat)
      ensures i <= |rows|
      ensures i < |rows| ==> rows[i].id == id
      ensures i == |rows| ==> forall k | 0 <= k < |rows| :: rows[k].id != id
    {
      i := 0;
      while i < |rows| && rows[i].id != id
        invariant i <= |rows| && forall k | 0 <= k < i :: rows[k].id != id
      {
        i := i + 1;
      }
    }

    /** A new trade enters with its status and no closing time; a duplicate id is skipped. */
    method LogTrade(id: string, status: Status, pnl: real)
      requires Valid()
      modifies this`rows
      ensures Valid()
      ensures rows == if exists i :: 0 <= i < |old(rows)| && old(rows)[i].id == id then old(rows)
                      else old(rows) + [Row(id, status, None, None, Some(pnl))]
      ensures AllBalanced(old(rows), days) ==> AllBalanced(rows, days)
    {
      var i := Find(id);
      if i < |rows| {
        return;
      }
      ghost var was := rows;
      rows := rows + [Row(id, status, None, None, Some(pnl))];
      assert rows[..|was|] == was;
      if AllBalanced(was, days) {
        forall date | date in days ensures Balanced(rows, days, date) {
          assert Balanced(was, days, date);
        }
      }
    }

    /** A new day starts at 0, which balances exactly when nothing was closed on it before. */
    method InitializeDailyStats(date: string)
      requires Valid() && |date| == 10
      modifies this`days
      ensures Valid()
      ensures days == if date in old(days) then old(days) else old(days)[date := DayStats(0.0, 0)]
      ensures AllBalanced(rows, old(days)) ==>
                (AllBalanced(rows, days) <==> date in old(days) || Tally(rows, date) == DayStats(0.0, 0))
    {
      if date !in days {
        days := days[date := DayStats(0.0, 0)];
        assert AllBalanced(rows, days) ==> Balanced(rows, days, date);
      }
    }

    method AddDailyRealizedPnl(date: string, amount: real)
      modifies this`days
      ensures days == if date !in old(days) then old(days)
                      else old(days)[date := old(days)[date].(total := old(days)[date].total + amount)]
    {
      if amount != 0.0 && date in days {
        days := days[date := days[date].(total := days[date].total + amount)];
      }
      assert date in old(days) ==> days == old(days)[date := days[date]];
    }

    method GetDailyTradeAnalytics(date: string) returns (total: real, closes: nat)
      ensures DayStats(total, closes) == Tally(rows, date)
    {
      total, closes := 0.0, 0;
      for i := 0 to |rows|
        invariant DayStats(total, closes) == Tally(rows[..i], date)
      {
        assert rows[..i + 1][..i] == rows[..i];
        if rows[i].ClosedOn(date) {
          total, closes := total + rows[i].Booked(), closes + 1;
        }
      }
      assert rows[..|rows|] == rows;
    }

    method WriteDailyStats(date: string, stats: DayStats)
      modifies this`days
      ensures days == if date in old(days) then old(days)[date := stats] else old(days)
    {
      if date in days {
        days := days[date := stats];
      }
    }

    /** Reads the day's analytics and then writes them; undisturbed, the day is balanced afterwards. */
    method SyncDailyStats(date: string)
      modifies this`days
      ensures days == if date in old(days) then old(days)[date := Tally(rows, date)] else old(days)
      ensures Balanced(rows, days, date)
    {
      var total, closes := GetDailyTradeAnalytics(date);
      WriteDailyStats(date, DayStats(total, closes));
    }

    /** The books after an exit order: the trade's running PnL is stored, the leg added to today and
        today re-derived. For a trade still open this leaves no trace in any day. */
    method BookLeg(id: string, cumulative: real, prior: real, today: string)
      requires Valid()
      modifies this
      ensures Valid() && |rows| == |old(rows)| && days.Keys == old(days).Keys
      ensures forall i | 0 <= i < |rows| ::
                rows[i] == if old(rows)[i].id == id
                           then old(rows)[i].(pnl := Some(cumulative), realized := Some(cumulative)) else old(rows)[i]
      ensures Balanced(rows, days, today)
      ensures StillOpen(old(rows), id) && AllBalanced(old(rows), old(days)) ==>
                days == old(days) && AllBalanced(rows, days)
    {
      hide Tally;
      ghost var before := days;
      var i := Find(id);
      if i < |rows| {
        ghost var was := rows;
        rows := rows[i := rows[i].(pnl := Some(cumulative), realized := Some(cumulative))];
        if !was[i].status.Closed? {
          OpenRowsDoNotCount(was, i, rows[i]);
        }
      }
      if cumulative - prior != 0.0 {
        AddDailyRealizedPnl(today, cumulative - prior);
      }
      SyncDailyStats(today);
      if StillOpen(old(rows), id) && AllBalanced(old(rows), before) {
        assert today in before ==> Balanced(old(rows), before, today);
        assert days == before;
        forall date | date in days ensures Balanced(rows, days, date) {
          assert Balanced(old(rows), before, date);
        }
      }
    }

    /** Closing moves one active trade into the tally of its day and re-derives that day; a trade that
        is already closed, or not active, is left alone and its stored PnL returned. */
    method CloseTradeAndSyncStats(
      trade: Row, pnl: Option<real>, estimate: real, closedAt: string, bookDaily: bool,
      delta: Option<real>) returns (result: real, ghost done: bool, ghost at: nat)
      requires Valid()
      modifies this
      ensures Valid()
      ensures done <==> trade.id != ""
                        && exists i :: 0 <= i < |old(rows)| && old(rows)[i].id == trade.id
                                       && (old(rows)[i].status == Open || old(rows)[i].status == Tp1Hit
                                           || old(rows)[i].status == Tp2Hit)
      ensures done ==>
                && at < |old(rows)| && old(rows)[at].id == trade.id
                && rows == old(rows)[at := ClosedRow(old(rows)[at], closedAt, result)]
                && rows[at].status == Closed && rows[at].closedAt == Some(closedAt)
                && rows[at].realized == rows[at].pnl == Some(result)
                && !rows[at].Active() && rows[at].Stored() == rows[at].Booked() == result
                && (pnl.Some? ==> result == pnl.value)
                && (pnl.None? ==> result == if old(rows)[at].Stored() != 0.0 then old(rows)[at].Stored() else estimate)
      ensures !done ==> rows == old(rows) && days == old(days)
      ensures forall i | 0 <= i < |old(rows)| && trade.id != "" ::
                old(rows)[i].id == trade.id && !old(rows)[i].Active() ==> result == old(rows)[i].Stored()
      ensures done ==> Balanced(rows, days, Day(closedAt))
      ensures AllBalanced(old(rows), old(days)) ==> AllBalanced(rows, days)
    {
      hide Tally;
      done, at := false, 0;
      if trade.id == "" {
        return 0.0, false, 0;
      }
      var i := Find(trade.id);
      if i < |rows| && rows[i].status.Closed? {
        return rows[i].Stored(), false, 0;
      }
      var row := if i < |rows| then rows[i] else trade;
      var prior := row.Stored();
      result := if pnl.Some? then pnl.value else if prior != 0.0 then prior else estimate;
      var change := if !bookDaily then 0.0 else if delta.Some? then delta.value else result - prior;
      if i == |rows| {
        return;
      }
      if !rows[i].Active() {
        return rows[i].Stored(), false, 0;
      }
      done, at := true, i;
      ghost var was, before := rows, days;
      rows := rows[i := ClosedRow(rows[i], closedAt, result)];
      if change != 0.0 {
        AddDailyRealizedPnl(Day(closedAt), change);
      }
      SyncDailyStats(Day(closedAt));
      if AllBalanced(was, before) {
        forall date | date in days && date != Day(closedAt) ensures Balanced(rows, days, date) {
          assert !(date <= closedAt);
          ReplaceInTally(was, i, rows[i], date);
          assert Balanced(was, before, date);
        }
      }
    }
  }
}
