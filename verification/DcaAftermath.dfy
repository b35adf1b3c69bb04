/** What becomes of a stage after a reconciled cancel, and after a claim made while an earlier add was
    still uncertain. */
module DcaAftermath {
  import opened Basics
  import opened TradeStore
  import opened DcaProtocol
  import opened DcaRuns

  /** The stage that this metadata alone would show. */
  function StageIn(meta: Meta): int { AtLeast(AtLeast(1, meta.entryStage), meta.dcaEntries) }

  // ---- After a reconciled cancel ----

  /** Column and metadata disagree, in the row and in every copy of the metadata, and nobody is at work on
      the row. */
  ghost predicate Wedged(w: World) {
    && w.row.column.Some? && StageIn(w.row.meta) > ColumnOf(w.row)
    && w.row.meta.uncertain.None?
    && w.reconciler.Asleep? && (w.monitor.Resting? || w.monitor.Read?)
    && forall k | k in w.copies :: w.copies[k].uncertain.None? && StageIn(w.copies[k]) > ColumnOf(w.row)
  }

  lemma {:induction false} WedgedForever(w: World, steps: seq<Step>)
    requires Wedged(w)
    ensures var w' := Run(w, steps);
            && Wedged(w') && w'.row.column == w.row.column && w'.row.quantity == w.row.quantity
            && |w'.orders| == |w.orders|
  {
    if steps != [] {
      var n := |steps| - 1;
      WedgedForever(w, steps[..n]);
      WedgedStep(Run(w, steps[..n]), steps[n]);
    }
  }

  lemma WedgedStep(w: World, s: Step)
    requires Wedged(w)
    ensures var n := Next(w, s);
            && Wedged(n) && n.row.column == w.row.column && n.row.quantity == w.row.quantity
            && |n.orders| == |w.orders|
  {
    if w.monitor.Read? {
      DisagreementIsStuck(w.row, w.monitor.stage, w.monitor.stage + 1, w.monitor.copy.meta);
    }
  }

  /** The reconciler has just read a consistent row with a mark. */
  ghost predicate LooksAtMarked(w: World) {
    && w.monitor.Resting? && w.reconciler == Looking(w.row) && w.row.meta.uncertain.Some?
    && var step := w.row.meta.uncertain.value.step;
    && (step == 2 || step == 3) && w.row.column == Some(step) && w.row.meta == w.row.meta.At(step)
  }

  /** A cancelled add is reverted, but the snapshot written back afterwards still carries the claimed
      stage: the stage could be claimed again exactly when the revert went through and that write was
      lost. */
  lemma RetryableIff(w: World, answer: nat, reverted: bool, persisted: bool, meta: Meta)
    requires LooksAtMarked(w) && Answers(w.orders, answer, w.row.meta.uncertain.value.step, Rejected)
    ensures var step := w.row.meta.uncertain.value.step;
            var n := Run(w, [LookupRejected(answer, reverted), ReconcileClear(persisted)]);
            Claim(n.row, step - 1, step, meta).1 <==> reverted && !persisted
  {
    RunOf2(w, LookupRejected(answer, reverted), ReconcileClear(persisted));
  }

  /** With both written, as intended, and nobody holding metadata from before the claim, the stage that was
      to be retried can never be claimed again: from there on no run submits anything for the trade. */
  lemma CancelledAddIsNeverRetried(w: World, answer: nat, steps: seq<Step>)
    requires LooksAtMarked(w) && Answers(w.orders, answer, w.row.meta.uncertain.value.step, Rejected)
    requires forall k | k in w.copies ::
               w.copies[k].uncertain.None? && StageIn(w.copies[k]) >= w.row.meta.uncertain.value.step
    ensures var cleared := Run(w, [LookupRejected(answer, true), ReconcileClear(true)]);
            && Wedged(cleared)
            && Run(cleared, steps).row.column == cleared.row.column
            && |Run(cleared, steps).orders| == |w.orders|
  {
    RunOf2(w, LookupRejected(answer, true), ReconcileClear(true));
    var cleared := Run(w, [LookupRejected(answer, true), ReconcileClear(true)]);
    WedgedForever(cleared, steps);
  }

  /** Such a cancel happens on the very first add. */
  lemma CancelIsReachable(quantity: real)
    ensures var w := Run(Opened(quantity), [TickRead, TickClaim, Submit] + [UnknownNow(true), ReconcileRead]);
            LooksAtMarked(w) && w.copies == map[] && Answers(w.orders, 0, w.row.meta.uncertain.value.step, Rejected)
  {
    FirstAddSent(quantity);
    Replay(Opened(quantity), [TickRead, TickClaim, Submit], [UnknownNow(true), ReconcileRead]);
    RunOf2(Run(Opened(quantity), [TickRead, TickClaim, Submit]), UnknownNow(true), ReconcileRead);
    hide Inv;
  }

  /** Only metadata from before the claim, written back whole, could free the stage again. */
  lemma OlderCopyFreesStageIff(w: World, k: nat, step: int, meta: Meta)
    requires k in w.copies && (step == 2 || step == 3) && w.row.column == Some(step - 1)
    ensures Claim(Next(w, CopyWrite(k, true)).row, step - 1, step, meta).1 <==> StageIn(w.copies[k]) <= step - 1
  {}

  // ---- A claim while a mark is stored ----

  /** A claim made from a copy that shows a mark succeeds, never submits, and is not rolled back. */
  lemma MarkedClaimStands(w: World, s: Step)
    requires w.monitor.Read? && w.monitor.copy.meta.uncertain.Some? && (s.Submit? || s.Refrain?)
    requires Claim(w.row, w.monitor.stage, w.monitor.stage + 1, w.monitor.copy.meta).1
    ensures var n := Run(w, [TickClaim, s]);
            && n.orders == w.orders && n.monitor.Resting?
            && n.row.column == Some(w.monitor.stage + 1) && Current(n.row) == w.monitor.stage + 1
            && n.row.meta.uncertain == w.monitor.copy.meta.uncertain
  {
    RunOf2(w, TickClaim, s);
  }

  /** The ladder is at its end, and nothing will bring it back. */
  ghost predicate AtTheEnd(w: World) {
    && ColumnOf(w.row) >= LAST_STAGE && w.row.meta.uncertain.None?
    && w.monitor.Resting? && w.reconciler.Asleep?
    && forall k | k in w.copies :: w.copies[k].uncertain.None?
  }

  lemma {:induction false} AtTheEndForever(w: World, steps: seq<Step>)
    requires AtTheEnd(w)
    ensures AtTheEnd(Run(w, steps)) && |Run(w, steps).orders| == |w.orders|
  {
    if steps != [] {
      AtTheEndForever(w, steps[..|steps| - 1]);
    }
  }

  /** After such a claim of the last stage: if the marked add turns out rejected, the last stage is lost
      for good, never having been submitted, whether or not the rejection's revert reaches the database. */
  lemma {:induction false} MarkedClaimLosesStage(w: World, answer: nat, reverted: bool, steps: seq<Step>)
    requires w.row.column == Some(3) && w.row.meta.uncertain.Some? && w.row.meta.uncertain.value.step == 2
    requires w.monitor.Resting? && w.reconciler.Asleep? && Answers(w.orders, answer, 2, Rejected)
    requires forall k | k in w.copies :: w.copies[k].uncertain.None?
    ensures var n := Run(w, [ReconcileRead, LookupRejected(answer, reverted), ReconcileClear(true)]);
            AtTheEnd(n) && |Run(n, steps).orders| == |w.orders|
  {
    RunOf3(w, ReconcileRead, LookupRejected(answer, reverted), ReconcileClear(true));
    var n := Run(w, [ReconcileRead, LookupRejected(answer, reverted), ReconcileClear(true)]);
    AtTheEndForever(n, steps);
  }

  /** If it turns out filled, its adoption gives the last stage back. */
  lemma MarkedFillGivesStageBack(w: World, answer: nat, quantity: real, meta: Meta)
    requires w.row.column == Some(3) && w.row.meta.uncertain.Some? && w.row.meta.uncertain.value.step == 2
    requires w.reconciler.Asleep? && Answers(w.orders, answer, 2, Filled) && quantity > 0.0
    ensures Claim(Run(w, [ReconcileRead, LookupFilled(answer, quantity, true)]).row, 2, 3, meta).1
  {
    RunOf2(w, ReconcileRead, LookupFilled(answer, quantity, true));
  }

  /** And the claim happens while the very first add is uncertain. */
  lemma {:induction false} MarkedClaimIsReachable(quantity: real, s: Step)
    requires s.Submit? || s.Refrain?
    ensures var w := Run(Opened(quantity), [TickRead, TickClaim, Submit] + [UnknownNow(true), TickRead]
                                           + [TickClaim, s]);
            && w.row.column == Some(3) && w.row.meta.uncertain == Some(Uncertain(2, 0))
            && w.monitor.Resting? && w.reconciler.Asleep? && w.copies == map[] && w.orders == [Order(2, Open)]
  {
    var w0, tick := Opened(quantity), [TickRead, TickClaim, Submit];
    Replay(w0, tick + [UnknownNow(true), TickRead], [TickClaim, s]);
    Replay(w0, tick, [UnknownNow(true), TickRead]);
    FirstAddSent(quantity);
    RunOf2(Run(w0, tick), UnknownNow(true), TickRead);
    var w5 := Run(w0, tick + [UnknownNow(true), TickRead]);
    MarkedClaimStands(w5, s);
    RunOf2(w5, TickClaim, s);
    hide Inv;
  }
}
