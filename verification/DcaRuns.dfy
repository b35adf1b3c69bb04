/** How at most once is lost for staged adds: the exact moment, and the runs that lead there from every
    state of their kind and from a fresh trade. */
module DcaRuns {
  import opened Basics
  import opened TradeStore
  import opened DcaProtocol

  /** The condition is exact: after any such step of the monitor its next tick submits the stage again
      beside the live order. */
  lemma RevertedLiveResubmits(w: World, s: Step)
    requires Inv(w) && RevertsLive(w, s) && !s.LookupRejected?
    ensures var orders := Run(w, [s] + [TickRead, TickClaim, Submit]).orders;
            && |orders| == |w.orders| + 1 && w.monitor.order == |w.orders| - 1
            && orders[w.monitor.order].stage == w.monitor.step && orders[w.monitor.order].fate != Rejected
            && orders[|w.orders|] == Order(w.monitor.step, Open)
            && !AtMostOnce(orders)
  {
    if s.RaisedAfterFill? {
      FillIsLatest(w.orders, s.answer, w.monitor.order);
    }
    var before := Next(w, s);
    Replay(w, [s], [TickRead, TickClaim, Submit]);
    RunOf1(w, s);
    RunOf3(before, TickRead, TickClaim, Submit);
    assert before.row.meta.uncertain.None?;
    assert Current(before.row) == ColumnOf(before.row) == w.monitor.step - 1;
    TickResubmits(before);
  }

  /** A tick on a consistent row without a mark claims and submits its next stage. */
  lemma TickResubmits(w: World)
    requires w.monitor.Resting? && w.row.meta.uncertain.None?
    requires 1 <= Current(w.row) == ColumnOf(w.row) < LAST_STAGE
    ensures Next(Next(Next(w, TickRead), TickClaim), Submit).orders == w.orders + [Order(Current(w.row) + 1, Open)]
  {
    var read := Next(w, TickRead);
    var claimed := Next(read, TickClaim);
    assert claimed.monitor.Claimed? && claimed.monitor.step == Current(w.row) + 1;
  }

  /** After such a step of the reconciler it takes a crash before the mark is cleared and one more
      reconcile: then the stage is submitted again beside the live order. */
  lemma LookupRevertResubmits(w: World, s: Step, gone: set<nat>, reverted: bool)
    requires Inv(w) && RevertsLive(w, s) && s.LookupRejected?
    ensures !AtMostOnce(Run(w, [s, Crash(gone), ReconcileRead]
                               + [LookupRejected(s.answer, reverted), ReconcileClear(true)]
                               + [TickRead, TickClaim, Submit]).orders)
  {
    hide Next;
    var mark := w.reconciler.snapshot.meta.uncertain.value;
    var first := [s, Crash(gone), ReconcileRead];
    var second := [LookupRejected(s.answer, reverted), ReconcileClear(true)];
    Replay(w, first + second, [TickRead, TickClaim, Submit]);
    Replay(w, first, second);
    CrashAfterRevert(w, s, gone);
    var w1 := Run(w, first);
    RunOf2(w1, LookupRejected(s.answer, reverted), ReconcileClear(true));
    hide Inv, RevertsLive, Run;
    RefusedAndCleared(w1, s.answer, reverted);
    var w2 := Next(Next(w1, LookupRejected(s.answer, reverted)), ReconcileClear(true));
    RunOf3(w2, TickRead, TickClaim, Submit);
    TickResubmits(w2);
    var orders := w.orders + [Order(mark.step, Open)];
    assert orders[mark.order].stage == orders[|w.orders|].stage && orders[mark.order].fate != Rejected;
  }

  /** A second rejection finds the stage rolled back already; its clear leaves a settled row. */
  lemma RefusedAndCleared(w: World, answer: nat, reverted: bool)
    requires w.monitor.Resting? && w.reconciler == Looking(w.row) && w.row.meta.uncertain.Some?
    requires var step := w.row.meta.uncertain.value.step;
             && (step == 2 || step == 3) && w.row.column == Some(step - 1) && w.row.meta == w.row.meta.At(step - 1)
             && Answers(w.orders, answer, step, Rejected) && w.orders[answer].fate == Rejected
    ensures var n := Next(Next(w, LookupRejected(answer, reverted)), ReconcileClear(true));
            && n.orders == w.orders && n.monitor.Resting?
            && n.row == w.row.(meta := w.row.meta.(uncertain := None))
  {
    SettledAlready(w.orders, answer);
    hide Settle;
  }

  lemma CrashAfterRevert(w: World, s: Step, gone: set<nat>)
    requires Inv(w) && RevertsLive(w, s) && s.LookupRejected?
    ensures var mark := w.reconciler.snapshot.meta.uncertain.value;
            var w1 := Run(w, [s, Crash(gone), ReconcileRead]);
            && mark.order == |w.orders| - 1 && w.orders[mark.order].fate != Rejected
            && w.orders[mark.order].stage == mark.step && (mark.step == 2 || mark.step == 3)
            && Answers(w.orders, s.answer, mark.step, Rejected) && w.orders[s.answer].fate == Rejected
            && w1.orders == w.orders && w1.monitor.Resting? && w1.reconciler == Looking(w1.row)
            && w1.row.meta.uncertain == Some(mark)
            && w1.row.column == Some(mark.step - 1) && w1.row.meta == w1.row.meta.At(mark.step - 1)
  {
    var mark := w.reconciler.snapshot.meta.uncertain.value;
    LooksAtLive(w, s);
    hide Inv, RevertsLive;
    RejectedAgain(w, s);
    RunOf3(w, s, Crash(gone), ReconcileRead);
    hide Revert, Settle, Answers;
    var rejected := Next(w, s);
    CrashAndRead(rejected, gone);
    hide Next, Run;
  }

  lemma CrashAndRead(w: World, gone: set<nat>)
    requires w.row.meta.uncertain.Some?
    ensures Next(Next(w, Crash(gone)), ReconcileRead)
            == w.(monitor := Resting, reconciler := Looking(w.row), copies := w.copies - gone)
  {}

  /** A rejection reported once more changes no order, only the row. */
  lemma RejectedAgain(w: World, s: Step)
    requires s.LookupRejected? && s.reverted && w.reconciler.Looking?
    requires w.reconciler.snapshot.meta.uncertain.Some?
    requires var mark := w.reconciler.snapshot.meta.uncertain.value;
             && Answers(w.orders, s.answer, mark.step, Rejected) && w.orders[s.answer].fate == Rejected
             && Revert(w.row, mark.step).1
    ensures var step := w.reconciler.snapshot.meta.uncertain.value.step;
            Next(w, s) == w.(row := w.row.(column := Some(step - 1), meta := w.row.meta.At(step - 1)),
                             reconciler := Reverted(w.reconciler.snapshot))
  {
    SettledAlready(w.orders, s.answer);
    hide Settle;
  }

  lemma SettledAlready(orders: seq<Order>, i: nat)
    requires i < |orders| && orders[i].fate == Rejected
    ensures Settle(orders, i, Rejected) == orders
  {}

  lemma LooksAtLive(w: World, s: Step)
    requires Inv(w) && RevertsLive(w, s) && s.LookupRejected?
    ensures var mark := w.reconciler.snapshot.meta.uncertain.value;
            && s.reverted && w.reconciler.Looking? && w.reconciler.snapshot.meta.uncertain == Some(mark)
            && w.row.meta.uncertain == Some(mark) && Revert(w.row, mark.step).1
            && mark.order == |w.orders| - 1 && w.orders[mark.order].fate != Rejected
            && w.orders[mark.order].stage == mark.step && (mark.step == 2 || mark.step == 3)
            && Answers(w.orders, s.answer, mark.step, Rejected) && w.orders[s.answer].fate == Rejected
  {
    var mark := w.reconciler.snapshot.meta.uncertain.value;
    LatestIsLive(w.orders, mark.order);
    assert w.row.meta.uncertain.value == mark;
  }

  /** A raise after the fill happens on the very first add. */
  lemma RaisingHelperResubmits(quantity: real, filled: real, persisted: bool)
    requires filled > 0.0
    ensures var sent := Run(Opened(quantity), [TickRead, TickClaim, Submit]);
            Inv(sent) && RevertsLive(sent, RaisedAfterFill(0, filled, persisted, true))
  {
    FirstAddSent(quantity);
  }

  lemma FirstAddSent(quantity: real)
    ensures var sent := Run(Opened(quantity), [TickRead, TickClaim, Submit]);
            && Inv(sent) && sent.orders == [Order(2, Open)] && sent.adopted == [] && sent.copies == map[]
            && sent.row == TradeRow(Some(2), Meta(Some(2), Some(2), None), quantity)
            && sent.monitor == Sent(sent.row.(column := Some(1)), 2, 0) && sent.reconciler.Asleep?
  {
    AddSent(Opened(quantity));
  }

  /** The first add is claimed and submitted, whoever else has read the metadata. */
  lemma AddSent(w: World)
    requires Inv(w) && w.row == TradeRow(Some(1), Meta(Some(1), Some(1), None), w.row.quantity)
    requires w.orders == [] && w.monitor.Resting? && w.reconciler.Asleep?
    ensures var sent := Run(w, [TickRead, TickClaim, Submit]);
            && Inv(sent) && sent.orders == [Order(2, Open)] && sent.adopted == w.adopted && sent.copies == w.copies
            && sent.row == TradeRow(Some(2), Meta(Some(2), Some(2), None), w.row.quantity)
            && sent.monitor == Sent(sent.row.(column := Some(1)), 2, 0) && sent.reconciler.Asleep?
  {
    RunOf3(w, TickRead, TickClaim, Submit);
    NextKeepsInvIff(w, TickRead);
    NextKeepsInvIff(Next(w, TickRead), TickClaim);
    NextKeepsInvIff(Next(Next(w, TickRead), TickClaim), Submit);
    hide Inv;
  }

  /** So does an answer about the wrong order: the first add expires and is reverted, the second times
      out, and the lookup by their common client id returns the first. */
  lemma WrongAnswerIsReachable(quantity: real)
    ensures var sent := Run(Opened(quantity), [TickRead, TickClaim, Submit] + [RejectedNow(0, true)]
                                              + [TickRead, TickClaim, Submit]);
            && Inv(sent) && sent.orders == [Order(2, Rejected), Order(2, Open)]
            && RevertsLive(sent, RejectedNow(0, true))
  {
    var once := [TickRead, TickClaim, Submit];
    FirstAddSent(quantity);
    var sent := Run(Opened(quantity), once);
    Replay(Opened(quantity), once + [RejectedNow(0, true)], once);
    Replay(Opened(quantity), once, [RejectedNow(0, true)]);
    RunOf1(sent, RejectedNow(0, true));
    NextKeepsInvIff(sent, RejectedNow(0, true));
    var reverted := Next(sent, RejectedNow(0, true));
    assert reverted.row == TradeRow(Some(1), Meta(Some(1), Some(1), None), quantity);
    RunOf3(reverted, TickRead, TickClaim, Submit);
    NextKeepsInvIff(reverted, TickRead);
    NextKeepsInvIff(Next(reverted, TickRead), TickClaim);
    NextKeepsInvIff(Next(Next(reverted, TickRead), TickClaim), Submit);
    hide Inv;
  }

  // ---- How at-most-once is lost ----

  /** A live order's stage lies above the stage column. */
  ghost predicate Overtaken(w: World) {
    exists s :: Live(w.orders, s) && s > ColumnOf(w.row)
  }

  /** It can only be lost by submitting a stage that has a live order. */
  lemma LostAtSubmit(w: World, s: Step)
    requires AtMostOnce(w.orders)
    ensures AtMostOnce(Next(w, s).orders)
            <==> !(s.Submit? && w.monitor.Claimed? && w.monitor.copy.meta.uncertain.None?
                   && Live(w.orders, w.monitor.step))
  {
    if s.Submit? && w.monitor.Claimed? && w.monitor.copy.meta.uncertain.None? {
      if Live(w.orders, w.monitor.step) {
        var i :| 0 <= i < |w.orders| && w.orders[i].stage == w.monitor.step && w.orders[i].fate != Rejected;
        var more := w.orders + [Order(w.monitor.step, Open)];
        assert more[i].stage == more[|w.orders|].stage;
      } else {
        SubmitKeeps(w.orders, w.monitor.step);
      }
    } else {
      SettlesAtMost(w, s);
    }
  }

  /** Every step that does not submit settles at most one order. */
  lemma SettlesAtMost(w: World, s: Step)
    requires !(s.Submit? && w.monitor.Claimed? && w.monitor.copy.meta.uncertain.None?)
    ensures AtMostOnce(w.orders) ==> AtMostOnce(Next(w, s).orders)
    ensures forall stage :: Live(Next(w, s).orders, stage) ==> Live(w.orders, stage)
  {
    hide Revert, Claim, Adopt, RevertUnlessLost;
    var next := Next(w, s);
    forall stage | Live(next.orders, stage) ensures Live(w.orders, stage) {
      var j :| 0 <= j < |next.orders| && next.orders[j].stage == stage && next.orders[j].fate != Rejected;
      assert w.orders[j].stage == stage && w.orders[j].fate != Rejected;
    }
  }

  /** As long as no live order is ever above the column, whatever else happens, at most once holds. */
  lemma {:induction false} NeverOvertakenAtMostOnce(w: World, steps: seq<Step>)
    requires AtMostOnce(w.orders) && w.monitor.Resting?
    requires forall n | 0 <= n <= |steps| :: !Overtaken(Run(w, steps[..n]))
    ensures var n := Run(w, steps);
            AtMostOnce(n.orders) && (n.monitor.Claimed? ==> !Live(n.orders, n.monitor.step))
  {
    hide Overtaken, Next;
    if steps != [] {
      var n := |steps| - 1;
      forall i | 0 <= i <= n ensures !Overtaken(Run(w, steps[..n][..i])) {
        assert steps[..n][..i] == steps[..i];
      }
      NeverOvertakenAtMostOnce(w, steps[..n]);
      assert !Overtaken(Run(w, steps[..n]));
      StepBelowColumn(Run(w, steps[..n]), steps[n]);
    }
  }

  lemma StepBelowColumn(w: World, s: Step)
    requires AtMostOnce(w.orders) && (w.monitor.Claimed? ==> !Live(w.orders, w.monitor.step)) && !Overtaken(w)
    ensures var n := Next(w, s);
            AtMostOnce(n.orders) && (n.monitor.Claimed? ==> !Live(n.orders, n.monitor.step))
  {
    LostAtSubmit(w, s);
    if !(s.Submit? && w.monitor.Claimed? && w.monitor.copy.meta.uncertain.None?) {
      SettlesAtMost(w, s);
    }
  }

  /** And once one is, right above, a settled row without a mark loses it at the next tick. */
  lemma OvertakenResubmits(w: World)
    requires w.monitor.Resting? && w.row.meta.uncertain.None?
    requires 1 <= Current(w.row) == ColumnOf(w.row) < LAST_STAGE && Live(w.orders, ColumnOf(w.row) + 1)
    ensures !AtMostOnce(Run(w, [TickRead, TickClaim, Submit]).orders)
  {
    RunOf3(w, TickRead, TickClaim, Submit);
    TickResubmits(w);
    var i :| 0 <= i < |w.orders| && w.orders[i].stage == ColumnOf(w.row) + 1 && w.orders[i].fate != Rejected;
    var more := w.orders + [Order(Current(w.row) + 1, Open)];
    assert more[i].stage == more[|w.orders|].stage;
  }

  // ---- Misplaced marks ----

  /** The reconciler looks at an add of stage 2 that can still be reported filled. */
  ghost predicate LooksAtSecond(w: World, answer: nat) {
    && w.reconciler.Looking? && w.reconciler.snapshot.meta.uncertain.Some?
    && w.reconciler.snapshot.meta.uncertain.value.step == 2 && Answers(w.orders, answer, 2, Filled)
  }

  /** Adopting it puts the row back to stage 2. */
  lemma AdoptsSecond(w: World, answer: nat, quantity: real)
    requires LooksAtSecond(w, answer) && quantity > 0.0
    ensures var n := Next(w, LookupFilled(answer, quantity, true));
            && n.orders == Settle(w.orders, answer, Filled) && n.monitor == w.monitor && n.reconciler.Asleep?
            && n.row.column == Some(2) && n.row.meta.uncertain.None? && Current(n.row) == 2
            && (forall s :: s != 2 && Live(w.orders, s) ==> Live(n.orders, s))
  {
    var n := Next(w, LookupFilled(answer, quantity, true));
    forall s | s != 2 && Live(w.orders, s) ensures Live(n.orders, s) {
      var i :| 0 <= i < |w.orders| && w.orders[i].stage == s && w.orders[i].fate != Rejected;
      assert n.orders[i].stage == s && n.orders[i].fate != Rejected;
    }
  }

  /** An older copy erases the mark the reconciler is working on: the next stage is submitted and filled,
      the adoption puts the row back, and the next stage is submitted again. */
  lemma {:induction false} ErasedMarkResubmits(w: World, k: nat, answer: nat, second: real, third: real)
    requires w.monitor.Resting? && LooksAtSecond(w, answer) && w.row.column == Some(2)
    requires k in w.copies && w.copies[k].uncertain.None?
    requires AtLeast(AtLeast(1, w.copies[k].entryStage), w.copies[k].dcaEntries) <= 2
    requires second > 0.0 && third > 0.0
    ensures MisplacesMark(w, CopyWrite(k, true))
    ensures !AtMostOnce(Run(w, [CopyWrite(k, true)] + [TickRead, TickClaim, Submit]
                               + [FilledNow(|w.orders|, third, true), LookupFilled(answer, second, true)]
                               + [TickRead, TickClaim, Submit]).orders)
  {
    hide Next;
    var tick := [TickRead, TickClaim, Submit];
    var fills := [FilledNow(|w.orders|, third, true), LookupFilled(answer, second, true)];
    Replay(w, [CopyWrite(k, true)] + tick + fills, tick);
    Replay(w, [CopyWrite(k, true)] + tick, fills);
    Replay(w, [CopyWrite(k, true)], tick);
    RunOf1(w, CopyWrite(k, true));
    MarkErased(w, k, answer);
    var w1 := Next(w, CopyWrite(k, true));
    RunOf3(w1, TickRead, TickClaim, Submit);
    ThirdSubmitted(w1);
    var w4 := Run(w1, tick);
    RunOf2(w4, fills[0], fills[1]);
    hide Run;
    SubmitLeavesSecond(w1, w4, answer);
    ThirdFilled(w4, third);
    var w5 := Next(w4, fills[0]);
    AdoptsSecond(w5, answer, second);
    OvertakenResubmits(Next(w5, fills[1]));
  }

  lemma MarkErased(w: World, k: nat, answer: nat)
    requires LooksAtSecond(w, answer) && w.row.column == Some(2)
    requires k in w.copies && w.copies[k].uncertain.None?
    requires AtLeast(AtLeast(1, w.copies[k].entryStage), w.copies[k].dcaEntries) <= 2
    ensures var n := Next(w, CopyWrite(k, true));
            && n.monitor == w.monitor && n.orders == w.orders && LooksAtSecond(n, answer)
            && n.row.meta.uncertain.None? && Current(n.row) == ColumnOf(n.row) == 2
  {}

  lemma SubmitLeavesSecond(w: World, n: World, answer: nat)
    requires LooksAtSecond(w, answer) && n.orders == w.orders + [Order(3, Open)] && n.reconciler == w.reconciler
    ensures LooksAtSecond(n, answer)
  {}

  lemma ThirdSubmitted(w: World)
    requires w.monitor.Resting? && w.row.meta.uncertain.None? && Current(w.row) == ColumnOf(w.row) == 2
    ensures var n := Next(Next(Next(w, TickRead), TickClaim), Submit);
            && n.orders == w.orders + [Order(3, Open)] && n.reconciler == w.reconciler
            && n.monitor.Sent? && n.monitor.step == 3 && n.monitor.order == |w.orders|
  {
    var claimed := Next(Next(w, TickRead), TickClaim);
    assert claimed.monitor.Claimed? && claimed.monitor.step == 3;
  }

  lemma ThirdFilled(w: World, quantity: real)
    requires w.orders != [] && w.orders[|w.orders| - 1] == Order(3, Open) && quantity > 0.0
    requires w.monitor.Sent? && w.monitor.step == 3
    ensures var n := Next(w, FilledNow(|w.orders| - 1, quantity, true));
            && n.orders == Settle(w.orders, |w.orders| - 1, Filled) && Live(n.orders, 3)
            && n.reconciler == w.reconciler && n.monitor.Resting?
            && forall answer :: LooksAtSecond(w, answer) ==> LooksAtSecond(n, answer)
  {
    var n := Next(w, FilledNow(|w.orders| - 1, quantity, true));
    assert n.orders[|w.orders| - 1] == Order(3, Filled);
  }

  /** A copy restores the mark of the second add when the third is live: its adoption puts the row back,
      and the third is submitted again. */
  lemma {:induction false} RestoredMarkResubmits(w: World, k: nat, answer: nat, quantity: real)
    requires w.monitor.Resting? && w.reconciler.Asleep? && Live(w.orders, 3) && quantity > 0.0
    requires k in w.copies && w.copies[k].uncertain.Some? && w.copies[k].uncertain.value.step == 2
    requires Answers(w.orders, answer, 2, Filled)
    ensures !AtMostOnce(Run(w, [CopyWrite(k, true), ReconcileRead, LookupFilled(answer, quantity, true)]
                               + [TickRead, TickClaim, Submit]).orders)
  {
    var first := [CopyWrite(k, true), ReconcileRead, LookupFilled(answer, quantity, true)];
    Replay(w, first, [TickRead, TickClaim, Submit]);
    RunOf3(w, CopyWrite(k, true), ReconcileRead, LookupFilled(answer, quantity, true));
    var w2 := Next(Next(w, CopyWrite(k, true)), ReconcileRead);
    AdoptsSecond(w2, answer, quantity);
    OvertakenResubmits(Run(w, first));
    hide Next, Run;
  }

  /** A copy restores it behind a monitor that has claimed the third: the reconciler adopts the second
      while the third is submitted, and the third is submitted again. */
  lemma {:induction false} MarkBehindMonitorResubmits(w: World, k: nat, answer: nat, quantity: real)
    requires w.monitor.Claimed? && w.monitor.step == 3 && w.monitor.copy.meta.uncertain.None?
    requires w.reconciler.Asleep? && quantity > 0.0
    requires k in w.copies && w.copies[k].uncertain.Some? && w.copies[k].uncertain.value.step == 2
    requires Answers(w.orders, answer, 2, Filled)
    ensures MisplacesMark(w, CopyWrite(k, true))
    ensures !AtMostOnce(Run(w, [CopyWrite(k, true), ReconcileRead, Submit]
                               + [LookupFilled(answer, quantity, true), UnknownNow(false)]
                               + [TickRead, TickClaim, Submit]).orders)
  {
    var first := [CopyWrite(k, true), ReconcileRead, Submit];
    var second := [LookupFilled(answer, quantity, true), UnknownNow(false)];
    Replay(w, first + second, [TickRead, TickClaim, Submit]);
    Replay(w, first, second);
    RunOf3(w, CopyWrite(k, true), ReconcileRead, Submit);
    var w3 := Run(w, first);
    assert w3.orders[|w.orders|] == Order(3, Open);
    assert Live(w3.orders, 3);
    RunOf2(w3, LookupFilled(answer, quantity, true), UnknownNow(false));
    AdoptsSecond(w3, answer, quantity);
    var w5 := Run(w3, second);
    assert w5.monitor.Resting?;
    OvertakenResubmits(w5);
    hide Next, Run;
  }

  /** A copy read before the first add erases its mark. */
  lemma {:induction false} EraseIsReachable(quantity: real)
    ensures var w := Run(Opened(quantity), [CopyRead(0)] + [TickRead, TickClaim, Submit]
                                           + [UnknownNow(true), ReconcileRead]);
            && Inv(w) && w.monitor.Resting? && LooksAtSecond(w, 0) && w.row.column == Some(2)
            && 0 in w.copies && w.copies[0] == Meta(Some(1), Some(1), None)
  {
    var w0 := Opened(quantity);
    Replay(w0, [CopyRead(0)] + [TickRead, TickClaim, Submit], [UnknownNow(true), ReconcileRead]);
    Replay(w0, [CopyRead(0)], [TickRead, TickClaim, Submit]);
    RunOf1(w0, CopyRead(0));
    var w1 := Next(w0, CopyRead(0));
    NextKeepsInvIff(w0, CopyRead(0));
    AddSent(w1);
    var w4 := Run(w1, [TickRead, TickClaim, Submit]);
    RunOf2(w4, UnknownNow(true), ReconcileRead);
    hide Inv, Run, Harms;
    AddMarked(w4);
    LooksAtMark(Next(w4, UnknownNow(true)));
    hide Next;
  }

  lemma LooksAtMark(w: World)
    requires Inv(w) && w.row.meta.uncertain.Some? && w.reconciler.Asleep?
    ensures var n := Next(w, ReconcileRead);
            Inv(n) && n == w.(reconciler := Looking(w.row))
  {
    NextKeepsInvIff(w, ReconcileRead);
    hide Inv;
  }

  /** The answer to the first add is unknown, and its mark is stored. */
  lemma AddMarked(w: World)
    requires Inv(w) && w.orders == [Order(2, Open)] && w.monitor.Sent? && w.monitor.step == 2 && w.monitor.order == 0
    requires w.monitor.copy.meta == Meta(Some(2), Some(2), None)
    ensures var n := Next(w, UnknownNow(true));
            && Inv(n)
            && n == w.(row := w.row.(meta := Meta(Some(2), Some(2), Some(Uncertain(2, 0)))), monitor := Resting)
  {
    NextKeepsInvIff(w, UnknownNow(true));
    hide Inv;
  }

  /** A copy read while the mark was stored restores it once it has been adopted and the third add is
      under way. */
  lemma {:induction false} RestoreIsReachable(quantity: real, filled: real)
    requires filled > 0.0
    ensures var w := Run(Opened(quantity), [TickRead, TickClaim, Submit]
                                           + [UnknownNow(true), CopyRead(0), ReconcileRead]
                                           + [LookupFilled(0, filled, true)] + [TickRead, TickClaim]);
            && Inv(w) && w.monitor.Claimed? && w.monitor.step == 3 && w.monitor.copy.meta.uncertain.None?
            && w.reconciler.Asleep? && w.orders == [Order(2, Filled)]
            && 0 in w.copies && w.copies[0] == Meta(Some(2), Some(2), Some(Uncertain(2, 0)))
  {
    var w0 := Opened(quantity);
    var tick := [TickRead, TickClaim, Submit];
    Replay(w0, tick + [UnknownNow(true), CopyRead(0), ReconcileRead] + [LookupFilled(0, filled, true)],
           [TickRead, TickClaim]);
    AdoptedWithCopy(quantity, filled);
    var w7 := Run(w0, tick + [UnknownNow(true), CopyRead(0), ReconcileRead] + [LookupFilled(0, filled, true)]);
    RunOf2(w7, TickRead, TickClaim);
    NextKeepsInvIff(w7, TickRead);
    NextKeepsInvIff(Next(w7, TickRead), TickClaim);
    hide Inv;
  }

  lemma {:induction false} AdoptedWithCopy(quantity: real, filled: real)
    requires filled > 0.0
    ensures var w := Run(Opened(quantity), [TickRead, TickClaim, Submit]
                                           + [UnknownNow(true), CopyRead(0), ReconcileRead]
                                           + [LookupFilled(0, filled, true)]);
            && Inv(w) && w.monitor.Resting? && w.reconciler.Asleep? && w.orders == [Order(2, Filled)]
            && w.row == TradeRow(Some(2), Meta(Some(2), Some(2), None), quantity + filled)
            && w.copies == map[0 := Meta(Some(2), Some(2), Some(Uncertain(2, 0)))]
            && w.adopted == [Adoption(0, filled)]
  {
    var w0 := Opened(quantity);
    var tick := [TickRead, TickClaim, Submit];
    var copying := [UnknownNow(true), CopyRead(0), ReconcileRead];
    var adopt := LookupFilled(0, filled, true);
    Replay(w0, tick + copying, [adopt]);
    Replay(w0, tick, copying);
    AddSent(w0);
    var w3 := Run(w0, tick);
    RunOf3(w3, UnknownNow(true), CopyRead(0), ReconcileRead);
    AddMarked(w3);
    var w4 := Next(w3, UnknownNow(true));
    var w5 := Next(w4, CopyRead(0));
    CopiedAndLooking(w4);
    hide Inv;
    var w6 := Run(w3, copying);
    RunOf1(w6, adopt);
    hide Run;
    NextKeepsInvIff(w6, adopt);
    hide Harms;
    assert Settle(w6.orders, 0, Filled) == [Order(2, Filled)];
    assert [] + [Adoption(0, filled)] == [Adoption(0, filled)];
  }

  lemma CopiedAndLooking(w: World)
    requires Inv(w) && w.row.meta.uncertain.Some? && w.reconciler.Asleep?
    ensures var n := Next(Next(w, CopyRead(0)), ReconcileRead);
            Inv(n) && n == w.(copies := w.copies[0 := w.row.meta], reconciler := Looking(w.row))
  {
    NextKeepsInvIff(w, CopyRead(0));
    NextKeepsInvIff(Next(w, CopyRead(0)), ReconcileRead);
    hide Inv;
  }
}
