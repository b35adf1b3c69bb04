/** One attempt at the next stage, from a settled row: what each of its outcomes leaves in the row, and
    which stage the tick after it submits. */
module DcaAttempts {
  import opened Basics
  import opened TradeStore
  import opened DcaProtocol
  import opened DcaRuns
  import opened DcaAftermath

  /** Column and both metadata stages show this stage, and there is no mark. */
  ghost predicate ShowsStage(row: TradeRow, stage: int) {
    row.column == Some(stage) && row.meta == Meta(Some(stage), Some(stage), None)
  }

  /** Nobody is at work on a row that shows this stage. */
  ghost predicate SettledAt(w: World, stage: int) {
    w.monitor.Resting? && w.reconciler.Asleep? && ShowsStage(w.row, stage)
  }

  /** The monitor has claimed the stage after it. */
  ghost predicate ClaimedFrom(w: World, n: World, stage: int) {
    && n == w.(row := n.row, monitor := n.monitor)
    && ShowsStage(n.row, stage + 1) && n.row.quantity == w.row.quantity
    && n.monitor == Claimed(n.row.(column := Some(stage)), stage + 1)
  }

  lemma ClaimsNext(w: World, stage: int)
    requires SettledAt(w, stage) && 1 <= stage < 3
    ensures ClaimedFrom(w, Run(w, [TickRead, TickClaim]), stage)
  {
    RunOf2(w, TickRead, TickClaim);
  }

  /** Until the order is out, the attempt has left no order; then exactly one. */
  lemma SubmitsNext(w: World, stage: int)
    requires SettledAt(w, stage) && 1 <= stage < 3
    ensures var sent := Run(w, [TickRead, TickClaim, Submit]);
            && sent == w.(row := sent.row, monitor := sent.monitor, orders := w.orders + [Order(stage + 1, Open)])
            && ShowsStage(sent.row, stage + 1) && sent.row.quantity == w.row.quantity
            && sent.monitor == Sent(sent.row.(column := Some(stage)), stage + 1, |w.orders|)
  {
    ClaimsNext(w, stage);
    RunOf2(w, TickRead, TickClaim);
    RunOf3(w, TickRead, TickClaim, Submit);
  }

  /** At the last stage a tick does nothing. */
  lemma LastStageRests(w: World)
    requires SettledAt(w, 3)
    ensures Run(w, [TickRead, TickClaim, Submit]) == w
  {
    RunOf3(w, TickRead, TickClaim, Submit);
  }

  // ---- A claim refused before its submit ----

  /** A check that fails after the claim rolls it back: column and both metadata stages show the stage
      before again, and no order was made. */
  lemma RefrainRollsBack(w: World)
    requires Inv(w) && w.monitor.Claimed? && w.monitor.copy.meta.uncertain.None?
    requires w.row.column == Some(w.monitor.step)
    requires w.row.meta == Meta(Some(w.monitor.step), Some(w.monitor.step), w.row.meta.uncertain)
    ensures var n := Next(w, Refrain(true));
            && n.row.column == n.row.meta.entryStage == n.row.meta.dcaEntries == Some(w.monitor.step - 1)
            && n.row.meta.uncertain == w.row.meta.uncertain && n.row.quantity == w.row.quantity
            && n.orders == w.orders && n.monitor.Resting?
  {}

  /** So the next tick submits the same stage, from every such state. */
  lemma RefrainedIsRetried(w: World)
    requires Inv(w) && w.monitor.Claimed? && w.monitor.copy.meta.uncertain.None?
    requires ShowsStage(w.row, w.monitor.step)
    ensures Run(w, [Refrain(true)] + [TickRead, TickClaim, Submit]).orders
            == w.orders + [Order(w.monitor.step, Open)]
  {
    RefrainRollsBack(w);
    Replay(w, [Refrain(true)], [TickRead, TickClaim, Submit]);
    RunOf1(w, Refrain(true));
    SubmitsNext(Next(w, Refrain(true)), w.monitor.step - 1);
  }

  /** A refused first add is made by the next tick. */
  lemma FirstAddIsRetried(quantity: real)
    ensures Run(Opened(quantity), [TickRead, TickClaim, Refrain(true)] + [TickRead, TickClaim, Submit]).orders
            == [Order(2, Open)]
  {
    var w := Opened(quantity);
    Replay(w, [TickRead, TickClaim, Refrain(true)], [TickRead, TickClaim, Submit]);
    EndsBeforeSubmit(w, 1, Refrain(true));
    SubmitsNext(Run(w, [TickRead, TickClaim, Refrain(true)]), 1);
  }

  // ---- All outcomes ----

  /** The attempt ends before its submit: rolled back, or left standing by a lost write or a crash. */
  lemma EndsBeforeSubmit(w: World, stage: int, end: Step)
    requires SettledAt(w, stage) && 1 <= stage < 3 && (end.Refrain? || end.Crash?)
    ensures var n := Run(w, [TickRead, TickClaim, end]);
            && n.orders == w.orders && n.adopted == w.adopted && n.row.quantity == w.row.quantity
            && SettledAt(n, if end == Refrain(true) then stage else stage + 1)
  {
    ClaimsNext(w, stage);
    RunOf2(w, TickRead, TickClaim);
    RunOf3(w, TickRead, TickClaim, end);
  }

  /** What the row shows after an answer to a submission: the old stage exactly after a rejection rolled
      back, the new one otherwise; more quantity exactly after a fill written. */
  ghost predicate Settles(row: TradeRow, stage: int, end: Step, n: World, order: nat)
    requires order < |n.orders|
  {
    match end
    case RejectedNow(answer, reverted) =>
      n.row.quantity == row.quantity && ShowsStage(n.row, if reverted then stage else stage + 1)
      && n.orders[order].fate == Rejected
    case FilledNow(answer, quantity, persisted) =>
      n.row.quantity == row.quantity + (if persisted then quantity else 0.0) && ShowsStage(n.row, stage + 1)
      && n.orders[order].fate == Filled
    case RaisedAfterFill(answer, quantity, persisted, reverted) =>
      n.row.quantity == row.quantity + (if persisted then quantity else 0.0)
      && ShowsStage(n.row, if reverted then stage else stage + 1) && n.orders[order].fate == Filled
    case UnknownNow(persisted) =>
      && n.row.quantity == row.quantity && n.row.column == Some(stage + 1)
      && n.row.meta == Meta(Some(stage + 1), Some(stage + 1),
                            if persisted then Some(Uncertain(stage + 1, order)) else None)
      && n.orders[order].fate == Open
    case _ => false
  }

  /** Every answer about the order just submitted ends the attempt accordingly. */
  lemma AnswerSettles(w: World, stage: int, end: Step)
    requires SettledAt(w, stage) && 1 <= stage < 3
    requires end.RejectedNow? || end.UnknownNow? || ((end.FilledNow? || end.RaisedAfterFill?) && end.quantity > 0.0)
    requires !end.UnknownNow? ==> end.answer == |w.orders|
    ensures var n := Run(w, [TickRead, TickClaim, Submit] + [end]);
            && |n.orders| == |w.orders| + 1 && n.orders[..|w.orders|] == w.orders
            && n.orders[|w.orders|].stage == stage + 1
            && n.monitor.Resting? && n.reconciler.Asleep?
            && Settles(w.row, stage, end, n, |w.orders|)
  {
    Replay(w, [TickRead, TickClaim, Submit], [end]);
    SubmitsNext(w, stage);
    RunOf1(Run(w, [TickRead, TickClaim, Submit]), end);
    hide Run;
  }

  /** The next tick submits the old stage again exactly after a rejection that was rolled back. */
  lemma RejectedIsRetriedIff(w: World, reverted: bool)
    requires SettledAt(w, 1)
    ensures var orders := Run(w, [TickRead, TickClaim, Submit] + [RejectedNow(|w.orders|, reverted)]
                                 + [TickRead, TickClaim, Submit]).orders;
            orders == w.orders + [Order(2, Rejected), Order(if reverted then 2 else 3, Open)]
  {
    var once := [TickRead, TickClaim, Submit];
    Replay(w, once + [RejectedNow(|w.orders|, reverted)], once);
    AnswerSettles(w, 1, RejectedNow(|w.orders|, reverted));
    var n := Run(w, once + [RejectedNow(|w.orders|, reverted)]);
    SubmitsNext(n, if reverted then 1 else 2);
    hide Run;
    assert n.orders == w.orders + [Order(2, Rejected)];
  }

  /** A claim left standing without an order is a stage skipped: after a crash between claim and submit,
      or a lost roll-back, the ladder goes on with the stage after. */
  lemma StandingClaimSkipsStage(w: World, end: Step)
    requires SettledAt(w, 1) && (end == Refrain(false) || end.Crash?)
    ensures Run(w, [TickRead, TickClaim, end] + [TickRead, TickClaim, Submit]).orders
            == w.orders + [Order(3, Open)]
  {
    Replay(w, [TickRead, TickClaim, end], [TickRead, TickClaim, Submit]);
    EndsBeforeSubmit(w, 1, end);
    SubmitsNext(Run(w, [TickRead, TickClaim, end]), 2);
    hide Run;
  }

  /** And at the end of the ladder it is lost for good. */
  lemma {:induction false} StandingClaimEndsLadder(w: World, end: Step, steps: seq<Step>)
    requires SettledAt(w, 2) && (end == Refrain(false) || end.Crash?)
    requires forall k | k in w.copies :: w.copies[k].uncertain.None?
    ensures |Run(Run(w, [TickRead, TickClaim, end]), steps).orders| == |w.orders|
  {
    EndsBeforeSubmit(w, 2, end);
    var n := Run(w, [TickRead, TickClaim, end]);
    RunOf3(w, TickRead, TickClaim, end);
    assert forall k | k in n.copies :: k in w.copies && n.copies[k] == w.copies[k];
    AtTheEndForever(n, steps);
    hide Run;
  }

  // ---- The exchange ----

  /** What the exchange has decided stands: orders are only added, keep their stage, and one that is rejected
      or filled stays so over every run; an open one takes the fate it is given, and no other changes. */
  lemma {:induction false} DecidedStands(w: World, steps: seq<Step>, i: nat)
    requires i < |w.orders|
    ensures var orders := Run(w, steps).orders;
            && |orders| >= |w.orders| && orders[i].stage == w.orders[i].stage
            && (w.orders[i].fate != Open ==> orders[i].fate == w.orders[i].fate)
  {
    if steps != [] {
      DecidedStands(w, steps[..|steps| - 1], i);
      hide Claim, Revert, Adopt, RevertUnlessLost;
    }
  }

  lemma OpenIsDecided(w: World, i: nat, fate: Fate)
    requires i < |w.orders| && w.orders[i].fate == Open
    ensures var n := Next(w, Resolve(i, fate));
            && n == w.(orders := n.orders) && |n.orders| == |w.orders|
            && n.orders[i] == Order(w.orders[i].stage, fate)
            && forall k | 0 <= k < |w.orders| && k != i :: n.orders[k] == w.orders[k]
  {}

  // ---- The reconciler ----

  /** It finds a stored mark, and what a lookup tells settles the row: a fill adds its quantity, drops the
      mark and keeps the stage; an inconclusive answer leaves the row for the next look. */
  lemma LookupSettles(w: World, stage: int, answer: nat, quantity: real)
    requires w.reconciler.Asleep? && w.row.column == Some(stage) && (stage == 2 || stage == 3)
    requires w.row.meta.uncertain.Some? && w.row.meta == Meta(Some(stage), Some(stage), w.row.meta.uncertain)
    requires w.row.meta.uncertain.value.step == stage && Answers(w.orders, answer, stage, Filled) && quantity > 0.0
    ensures var n := Run(w, [ReconcileRead, LookupFilled(answer, quantity, true)]);
            && ShowsStage(n.row, stage) && n.row.quantity == w.row.quantity + quantity
            && n.orders == Settle(w.orders, answer, Filled) && n.reconciler.Asleep? && n.monitor == w.monitor
    ensures Run(w, [ReconcileRead, LookupNothing]) == w
    ensures Run(w, [ReconcileRead, LookupFilled(answer, quantity, false)]).row == w.row
  {
    RunOf2(w, ReconcileRead, LookupFilled(answer, quantity, true));
    RunOf2(w, ReconcileRead, LookupFilled(answer, quantity, false));
    RunOf2(w, ReconcileRead, LookupNothing);
  }

  /** A claim fails, and ends the tick, exactly when the row no longer shows the stage that was read. */
  lemma OvertakenClaimIff(w: World, stage: int, now: int)
    requires SettledAt(w, stage) && 1 <= stage < 3
    requires 1 <= now <= 3
    ensures var read := Next(w, TickRead);
            var moved := read.(row := TradeRow(Some(now), Meta(Some(now), Some(now), None), w.row.quantity));
            && (Next(moved, TickClaim).monitor.Claimed? <==> now == stage)
            && (now != stage ==> Next(moved, TickClaim) == moved.(monitor := Resting))
  {}
}
