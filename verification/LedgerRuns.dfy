/** Several threads and processes at the daily ledger. The analytics of a day are two queries made before
    the lock under which they are written, so a sync is three steps and others come in between. */
module LedgerRuns {
  import opened Basics
  import opened Ledger

  /** A thread that changed a trade owes the day a sync; it reads the total, then the count, and then
      holds what it will write. */
  datatype Phase =
    | Idle
    | Owing(date: string)
    | HalfRead(date: string, total: real)
    | Holding(date: string, stats: DayStats)

  datatype World = World(rows: seq<Row>, days: map<string, DayStats>, threads: seq<Phase>)

  datatype Step =
    | NewTrade(row: Row)
    | NewDay(date: string)
    | Close(thread: nat, i: nat, closedAt: string, pnl: real)
    | Leg(thread: nat, i: nat, cumulative: real, today: string)
    | Report(thread: nat, date: string)  // a sync without a change
    | Add(thread: nat, amount: real)     // the running total, before the sync
    | SyncTotal(thread: nat)
    | SyncCount(thread: nat)
    | SyncWrite(thread: nat)
    | Abandon(thread: nat)               // the thread raises or its process dies

  predicate IsIdle(w: World, t: nat) { t < |w.threads| && w.threads[t].Idle? }

  predicate IsHolding(w: World, t: nat) { t < |w.threads| && w.threads[t].Holding? }

  function Booked(row: Row, cumulative: real): Row { row.(pnl := Some(cumulative), realized := Some(cumulative)) }

  function Next(w: World, s: Step): World {
    match s
    case NewTrade(row) =>
      if row.status.Closed? then w else w.(rows := w.rows + [row])
    case NewDay(date) =>
      if |date| != 10 || date in w.days then w else w.(days := w.days[date := DayStats(0.0, 0)])
    case Close(t, i, closedAt, pnl) =>
      if !IsIdle(w, t) || i >= |w.rows| || !w.rows[i].Active() then w
      else w.(rows := w.rows[i := ClosedRow(w.rows[i], closedAt, pnl)],
              threads := w.threads[t := Owing(Day(closedAt))])
    case Leg(t, i, cumulative, today) =>
      if !IsIdle(w, t) || i >= |w.rows| then w
      else w.(rows := w.rows[i := Booked(w.rows[i], cumulative)], threads := w.threads[t := Owing(today)])
    case Report(t, date) =>
      if IsIdle(w, t) then w.(threads := w.threads[t := Owing(date)]) else w
    case Add(t, amount) =>
      if t >= |w.threads| || !w.threads[t].Owing? || w.threads[t].date !in w.days then w
      else
        var date := w.threads[t].date;
        w.(days := w.days[date := w.days[date].(total := w.days[date].total + amount)])
    case SyncTotal(t) =>
      if t >= |w.threads| || !w.threads[t].Owing? then w
      else
        var date := w.threads[t].date;
        w.(threads := w.threads[t := HalfRead(date, Tally(w.rows, date).total)])
    case SyncCount(t) =>
      if t >= |w.threads| || !w.threads[t].HalfRead? then w
      else
        var date := w.threads[t].date;
        w.(threads := w.threads[t := Holding(date, DayStats(w.threads[t].total, Tally(w.rows, date).closes))])
    case SyncWrite(t) =>
      if !IsHolding(w, t) then w
      else
        var (date, stats) := (w.threads[t].date, w.threads[t].stats);
        w.(days := if date in w.days then w.days[date := stats] else w.days, threads := w.threads[t := Idle])
    case Abandon(t) =>
      if t < |w.threads| then w.(threads := w.threads[t := Idle]) else w
  }

  function Run(w: World, steps: seq<Step>): World {
    if steps == [] then w else Next(Run(w, steps[..|steps| - 1]), steps[|steps| - 1])
  }

  /** The thread will still write what the day should show: it has yet to read, or what it read is
      still true. */
  ghost predicate Owes(w: World, t: nat, date: string) {
    t < |w.threads|
    && (|| w.threads[t] == Owing(date)
        || w.threads[t] == HalfRead(date, Tally(w.rows, date).total)
        || w.threads[t] == Holding(date, Tally(w.rows, date)))
  }

  ghost predicate SomeoneOwes(w: World, date: string) {
    exists t: nat :: Owes(w, t, date)
  }

  ghost predicate SomeoneElseOwes(w: World, not: nat, date: string) {
    exists t: nat :: t != not && Owes(w, t, date)
  }

  /** Every day is balanced or about to be. */
  ghost predicate Inv(w: World) {
    forall date | date in w.days ::
      |date| == 10 && (Balanced(w.rows, w.days, date) || SomeoneOwes(w, date))
  }

  /** A write is harmless if what it writes is still true, or someone else will write again. */
  ghost predicate Harmless(w: World, s: Step) {
    match s
    case SyncWrite(t) =>
      IsHolding(w, t) && w.threads[t].date in w.days ==>
        w.threads[t].stats == Tally(w.rows, w.threads[t].date) || SomeoneElseOwes(w, t, w.threads[t].date)
    case Abandon(t) =>
      t < |w.threads| && !w.threads[t].Idle? && w.threads[t].date in w.days ==>
        Balanced(w.rows, w.days, w.threads[t].date) || SomeoneElseOwes(w, t, w.threads[t].date)
    case NewDay(date) =>
      |date| == 10 && date !in w.days ==> Tally(w.rows, date) == DayStats(0.0, 0) || SomeoneOwes(w, date)
    case Leg(t, i, cumulative, today) =>
      i < |w.rows| && w.rows[i].status.Closed? ==>
        (w.rows[i].ClosedOn(today) && |today| == 10) || cumulative == w.rows[i].Booked()
    case _ => true
  }

  /** The tally of every other day survives a change of one row. */
  ghost predicate OnlyDay(rows: seq<Row>, rows': seq<Row>, day: string) {
    forall date: string | |date| == 10 && date != day :: Tally(rows', date) == Tally(rows, date)
  }

  lemma CloseTouchesOneDay(rows: seq<Row>, i: nat, closedAt: string, pnl: real)
    requires i < |rows| && rows[i].Active()
    ensures OnlyDay(rows, rows[i := ClosedRow(rows[i], closedAt, pnl)], Day(closedAt))
  {
    forall date: string | |date| == 10 && date != Day(closedAt)
      ensures Tally(rows[i := ClosedRow(rows[i], closedAt, pnl)], date) == Tally(rows, date)
    {
      assert !(date <= closedAt);
      ReplaceInTally(rows, i, ClosedRow(rows[i], closedAt, pnl), date);
    }
  }

  lemma LegTouchesOneDay(rows: seq<Row>, i: nat, cumulative: real, today: string)
    requires i < |rows|
    requires rows[i].status.Closed? ==>
               (rows[i].ClosedOn(today) && |today| == 10) || cumulative == rows[i].Booked()
    ensures OnlyDay(rows, rows[i := Booked(rows[i], cumulative)], today)
  {
    forall date: string | |date| == 10 && date != today
      ensures Tally(rows[i := Booked(rows[i], cumulative)], date) == Tally(rows, date)
    {
      ReplaceInTally(rows, i, Booked(rows[i], cumulative), date);
      if rows[i].closedAt.Some? {
        OneDate(today, date, rows[i].closedAt.value);
      }
    }
  }

  lemma OneDate(a: string, b: string, closedAt: string)
    requires a != b && |b| == 10
    ensures |a| == 10 ==> !(a <= closedAt && b <= closedAt)
  {}

  /** A change by an idle thread leaves it owing the day it touched, and everybody else as before. */
  lemma ChangeKeepsInv(w: World, t: nat, rows: seq<Row>, day: string)
    requires Inv(w) && IsIdle(w, t) && OnlyDay(w.rows, rows, day)
    ensures Inv(w.(rows := rows, threads := w.threads[t := Owing(day)]))
  {
    hide Tally;
    var next := w.(rows := rows, threads := w.threads[t := Owing(day)]);
    forall date | date in next.days
      ensures |date| == 10 && (Balanced(next.rows, next.days, date) || SomeoneOwes(next, date))
    {
      if date == day {
        assert Owes(next, t, date);
      } else if !Balanced(w.rows, w.days, date) {
        var u: nat :| Owes(w, u, date);
        assert Owes(next, u, date);
      }
    }
  }

  lemma NewTradeKeepsInv(w: World, row: Row)
    requires Inv(w) && !row.status.Closed?
    ensures Inv(w.(rows := w.rows + [row]))
  {
    var next := w.(rows := w.rows + [row]);
    assert next.rows[..|w.rows|] == w.rows;
    assert forall date :: Tally(next.rows, date) == Tally(w.rows, date);
    hide Tally;
    forall date | date in next.days
      ensures |date| == 10 && (Balanced(next.rows, next.days, date) || SomeoneOwes(next, date))
    {
      if !Balanced(w.rows, w.days, date) {
        var u: nat :| Owes(w, u, date);
        assert Owes(next, u, date);
      }
    }
  }

  /** The thread moves on without losing what it owes, and nothing it does not owe is changed. */
  lemma OwnStepKeepsInv(w: World, s: Step)
    requires Inv(w) && (s.Report? || s.Add? || s.SyncTotal? || s.SyncCount?)
    ensures Inv(Next(w, s))
  {
    hide Tally;
    var next := Next(w, s);
    if next != w {
      var t := s.thread;
      forall date | date in next.days
        ensures |date| == 10 && (Balanced(next.rows, next.days, date) || SomeoneOwes(next, date))
      {
        if Owes(w, t, date) {
          assert Owes(next, t, date);
        } else if !Balanced(w.rows, w.days, date) {
          var u: nat :| Owes(w, u, date);
          assert Owes(next, u, date);
        }
      }
    }
  }

  /** The lost update, exactly: a write keeps every day balanced or about to be if and only if what it
      writes is still true or someone else will write again. */
  lemma {:induction false} SyncWriteKeepsInvIff(w: World, t: nat)
    requires Inv(w)
    ensures Inv(Next(w, SyncWrite(t))) <==> Harmless(w, SyncWrite(t))
  {
    hide Tally;
    if IsHolding(w, t) {
      LeavingKeepsInvIff(w, t, Next(w, SyncWrite(t)));
    }
  }

  /** So is a thread that gives up after its change. */
  lemma {:induction false} AbandonKeepsInvIff(w: World, t: nat)
    requires Inv(w)
    ensures Inv(Next(w, Abandon(t))) <==> Harmless(w, Abandon(t))
  {
    hide Tally;
    if t < |w.threads| {
      if w.threads[t].Idle? {
        assert Next(w, Abandon(t)) == w;
      } else {
        LeavingKeepsInvIff(w, t, Next(w, Abandon(t)));
      }
    }
  }

  /** A thread leaves with or without a write to its own day. */
  lemma {:induction false} LeavingKeepsInvIff(w: World, t: nat, next: World)
    requires Inv(w) && t < |w.threads| && !w.threads[t].Idle?
    requires next.rows == w.rows && next.threads == w.threads[t := Idle] && next.days.Keys == w.days.Keys
    requires forall date | date in w.days && date != w.threads[t].date :: next.days[date] == w.days[date]
    ensures var date := w.threads[t].date;
            Inv(next) <==> (date in w.days ==> Balanced(w.rows, next.days, date) || SomeoneElseOwes(w, t, date))
  {
    hide Tally;
    var own := w.threads[t].date;
    forall date ensures SomeoneOwes(next, date) <==> SomeoneElseOwes(w, t, date) {
      if SomeoneOwes(next, date) {
        var u: nat :| Owes(next, u, date);
        assert u != t && Owes(w, u, date);
      }
      if SomeoneElseOwes(w, t, date) {
        var u: nat :| u != t && Owes(w, u, date);
        assert Owes(next, u, date);
      }
    }
    forall date | date in w.days && date != own
      ensures |date| == 10 && (Balanced(next.rows, next.days, date) || SomeoneOwes(next, date))
    {
      if !Balanced(w.rows, w.days, date) {
        var u: nat :| Owes(w, u, date);
        assert u != t;
      }
    }
  }

  /** A new day starts at 0: right exactly when nothing was closed on it, or someone will sync it. */
  lemma {:induction false} NewDayKeepsInvIff(w: World, date: string)
    requires Inv(w)
    ensures Inv(Next(w, NewDay(date))) <==> Harmless(w, NewDay(date))
  {
    hide Tally;
    var next := Next(w, NewDay(date));
    if next != w {
      forall d ensures SomeoneOwes(next, d) <==> SomeoneOwes(w, d) {
        if SomeoneOwes(next, d) { var u: nat :| Owes(next, u, d); assert Owes(w, u, d); }
        if SomeoneOwes(w, d) { var u: nat :| Owes(w, u, d); assert Owes(next, u, d); }
      }
      forall d | d in w.days ensures |d| == 10 && (Balanced(next.rows, next.days, d) || SomeoneOwes(next, d)) {
        assert Balanced(next.rows, next.days, d) <==> Balanced(w.rows, w.days, d);
      }
      assert next.days[date] == DayStats(0.0, 0);
    }
  }

  lemma NextKeepsInv(w: World, s: Step)
    requires Inv(w) && Harmless(w, s)
    ensures Inv(Next(w, s))
  {
    hide Tally, Inv;
    match s
    case NewTrade(row) =>
      if !row.status.Closed? { NewTradeKeepsInv(w, row); }
    case NewDay(date) => NewDayKeepsInvIff(w, date);
    case Close(t, i, closedAt, pnl) =>
      if IsIdle(w, t) && i < |w.rows| && w.rows[i].Active() {
        CloseTouchesOneDay(w.rows, i, closedAt, pnl);
        ChangeKeepsInv(w, t, w.rows[i := ClosedRow(w.rows[i], closedAt, pnl)], Day(closedAt));
      }
    case Leg(t, i, cumulative, today) =>
      if IsIdle(w, t) && i < |w.rows| {
        LegTouchesOneDay(w.rows, i, cumulative, today);
        ChangeKeepsInv(w, t, w.rows[i := Booked(w.rows[i], cumulative)], today);
      }
    case SyncWrite(t) => SyncWriteKeepsInvIff(w, t);
    case Abandon(t) => AbandonKeepsInvIff(w, t);
    case _ => OwnStepKeepsInv(w, s);
  }

  ghost predicate AllHarmless(w: World, steps: seq<Step>) {
    forall n | 0 <= n < |steps| :: Harmless(Run(w, steps[..n]), steps[n])
  }

  ghost predicate AllIdle(w: World) {
    forall t | 0 <= t < |w.threads| :: w.threads[t].Idle?
  }

  lemma {:induction false} RunKeepsInv(w: World, steps: seq<Step>)
    requires Inv(w) && AllHarmless(w, steps)
    ensures Inv(Run(w, steps))
  {
    hide Inv, Harmless, Next;
    if steps != [] {
      var n := |steps| - 1;
      forall i | 0 <= i < n ensures Harmless(Run(w, steps[..n][..i]), steps[..n][i]) {
        assert steps[..n][..i] == steps[..i];
      }
      RunKeepsInv(w, steps[..n]);
      NextKeepsInv(Run(w, steps[..n]), steps[n]);
    }
  }

  /** The ledger over whole runs: whatever trades, closes, legs, reports and new days interleave, once
      every thread is done every day shows exactly the trades closed on it. */
  lemma {:induction false} EveryRunBalances(w: World, steps: seq<Step>)
    requires Inv(w) && AllHarmless(w, steps)
    ensures AllIdle(Run(w, steps)) ==> AllBalanced(Run(w, steps).rows, Run(w, steps).days)
  {
    RunKeepsInv(w, steps);
    hide Run, Tally;
  }

  /** A write right after its reads is never harmful, so neither are serial syncs. */
  lemma WriteAfterReadIsHarmless(w: World, t: nat)
    requires t < |w.threads| && w.threads[t].Owing?
    ensures Harmless(Next(Next(w, SyncTotal(t)), SyncCount(t)), SyncWrite(t))
  {}

  /** An undisturbed close and both reads of its day. */
  lemma {:induction false} CloseAndRead(w: World, t: nat, i: nat, closedAt: string, pnl: real)
    requires IsIdle(w, t) && i < |w.rows| && w.rows[i].Active()
    ensures var rows := w.rows[i := ClosedRow(w.rows[i], closedAt, pnl)];
            Run(w, [Close(t, i, closedAt, pnl), SyncTotal(t), SyncCount(t)])
            == w.(rows := rows, threads := w.threads[t := Holding(Day(closedAt), Tally(rows, Day(closedAt)))])
  {
    ThreeSteps(w, Close(t, i, closedAt, pnl), SyncTotal(t), SyncCount(t));
    hide Tally, Run;
  }

  /** The life of a trade in the books: entered and closed by one undisturbed thread, it adds itself to the
      day's count, and the day is balanced, whatever was added to its total before the sync. */
  lemma {:induction false} TradeEntersDay(
    w: World, t: nat, row: Row, closedAt: string, pnl: real, amount: real)
    requires IsIdle(w, t) && row.Active() && |closedAt| >= 10 && closedAt[..10] in w.days
    ensures var day := closedAt[..10];
            var n := Run(w, [NewTrade(row), Close(t, |w.rows|, closedAt, pnl), Add(t, amount)]
                            + [SyncTotal(t), SyncCount(t), SyncWrite(t)]);
            && n.threads == w.threads && day in n.days && Balanced(n.rows, n.days, day)
            && n.days[day].closes == Tally(w.rows, day).closes + 1
            && n.days[day].total == Tally(w.rows, day).total + pnl
  {
    var (day, i) := (closedAt[..10], |w.rows|);
    Replay(w, [NewTrade(row), Close(t, i, closedAt, pnl), Add(t, amount)], [SyncTotal(t), SyncCount(t), SyncWrite(t)]);
    ThreeSteps(w, NewTrade(row), Close(t, i, closedAt, pnl), Add(t, amount));
    AddIsVisible(Next(Next(w, NewTrade(row)), Close(t, i, closedAt, pnl)), t, amount);
    var rows := w.rows + [row];
    assert rows[..i] == w.rows;
    CloseAddsToDay(rows, i, closedAt, pnl, day);
    hide Run;
    var added := Run(w, [NewTrade(row), Close(t, i, closedAt, pnl), Add(t, amount)]);
    assert added.threads == w.threads[t := Owing(day)] && added.rows == rows[i := ClosedRow(row, closedAt, pnl)];
    SyncBalances(added, t);
    assert added.threads[t := Idle] == w.threads;
    hide Next, Tally;
  }

  /** What a thread adds shows in the day's total until some sync overwrites it. */
  lemma AddIsVisible(w: World, t: nat, amount: real)
    requires t < |w.threads| && w.threads[t].Owing? && w.threads[t].date in w.days
    ensures var (n, day) := (Next(w, Add(t, amount)), w.threads[t].date);
            n == w.(days := w.days[day := DayStats(w.days[day].total + amount, w.days[day].closes)])
  {}

  lemma {:induction false} SyncBalances(w: World, t: nat)
    requires t < |w.threads| && w.threads[t].Owing?
    ensures var (n, day) := (Run(w, [SyncTotal(t), SyncCount(t), SyncWrite(t)]), w.threads[t].date);
            && n.rows == w.rows && n.threads == w.threads[t := Idle] && n.days.Keys == w.days.Keys
            && (forall date | date in w.days && date != day :: n.days[date] == w.days[date])
            && (day in w.days ==> n.days[day] == Tally(w.rows, day))
  {
    hide Tally;
    ThreeSteps(w, SyncTotal(t), SyncCount(t), SyncWrite(t));
    hide Run;
  }

  /** An undisturbed report repairs the day it is made for, however wrong it was, and no other. */
  lemma {:induction false} ReportRepairs(w: World, t: nat, day: string)
    requires IsIdle(w, t) && day in w.days
    ensures var n := Run(w, [Report(t, day)] + [SyncTotal(t), SyncCount(t), SyncWrite(t)]);
            n == w.(days := w.days[day := Tally(w.rows, day)])
  {
    Replay(w, [Report(t, day)], [SyncTotal(t), SyncCount(t), SyncWrite(t)]);
    assert [Report(t, day)][..0] == [];
    assert Run(w, [Report(t, day)]) == Next(w, Report(t, day));
    SyncBalances(Next(w, Report(t, day)), t);
    hide Run, Tally;
    assert w.threads[t := Owing(day)][t := Idle] == w.threads;
  }

  /** The lost update: two closes on one day, and the slower sync writes what it read before the other
      close. Every thread is done, and the day lacks a trade. */
  lemma {:induction false} SlowerSyncLosesClose(
    w: World, a: nat, b: nat, i: nat, j: nat, closedAt: string, one: real, two: real)
    requires a != b && IsIdle(w, a) && IsIdle(w, b) && |closedAt| >= 10 && Day(closedAt) in w.days
    requires i != j && i < |w.rows| && j < |w.rows| && w.rows[i].Active() && w.rows[j].Active()
    ensures var n := Run(w, [Close(a, i, closedAt, one), SyncTotal(a), SyncCount(a)]
                            + [Close(b, j, closedAt, two), SyncTotal(b), SyncCount(b)]
                            + [SyncWrite(b), SyncWrite(a)]);
            && n.threads == w.threads
            && Day(closedAt) in n.days
            && n.days[Day(closedAt)].closes + 1 == Tally(n.rows, Day(closedAt)).closes
            && !Balanced(n.rows, n.days, Day(closedAt))
  {
    var day := Day(closedAt);
    var first := w.rows[i := ClosedRow(w.rows[i], closedAt, one)];
    var both := first[j := ClosedRow(first[j], closedAt, two)];
    ReplaceInTally(first, j, ClosedRow(first[j], closedAt, two), day);
    assert day <= closedAt;
    var read := [Close(a, i, closedAt, one), SyncTotal(a), SyncCount(a)];
    var reread := [Close(b, j, closedAt, two), SyncTotal(b), SyncCount(b)];
    CloseAndRead(w, a, i, closedAt, one);
    CloseAndRead(Run(w, read), b, j, closedAt, two);
    Replay(w, read + reread, [SyncWrite(b), SyncWrite(a)]);
    Replay(w, read, reread);
    var w4 := Run(w, read + reread);
    var stale, latest := Holding(day, Tally(first, day)), Holding(day, Tally(both, day));
    assert w4 == World(both, w.days, w.threads[a := stale][b := latest]);
    StaleWriteLast(w4, a, b, day);
    hide Tally, Run, Next;
    assert w4.threads[b := Idle][a := Idle] == w.threads;
  }

  lemma {:induction false} StaleWriteLast(w: World, a: nat, b: nat, day: string)
    requires a != b && IsHolding(w, a) && IsHolding(w, b)
    requires day in w.days && w.threads[a].date == w.threads[b].date == day
    ensures Run(w, [SyncWrite(b), SyncWrite(a)])
            == World(w.rows, w.days[day := w.threads[a].stats], w.threads[b := Idle][a := Idle])
  {
    TwoSteps(w, SyncWrite(b), SyncWrite(a));
    hide Run;
  }

  lemma {:induction false} Replay(w: World, first: seq<Step>, second: seq<Step>)
    ensures Run(w, first + second) == Run(Run(w, first), second)
  {
    hide Next;
    if second == [] {
      assert first + second == first;
    } else {
      var n := |second| - 1;
      Replay(w, first, second[..n]);
      assert (first + second)[..|first| + n] == first + second[..n];
    }
  }

  lemma TwoSteps(w: World, a: Step, b: Step)
    ensures Run(w, [a, b]) == Next(Next(w, a), b)
  {
    hide Next;
    assert [a, b][..1] == [a] && [a][..0] == [];
    assert Run(w, [a]) == Next(w, a);
  }

  lemma ThreeSteps(w: World, a: Step, b: Step, c: Step)
    ensures Run(w, [a, b, c]) == Next(Next(Next(w, a), b), c)
  {
    hide Next;
    TwoSteps(w, a, b);
    assert [a, b, c][..2] == [a, b];
  }
}
