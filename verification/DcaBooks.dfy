/** The traded quantity of a laddered trade: what every fill adds to it, by the direct path or by lookup,
    and what it takes for each fill to be added once. */
module DcaBooks {
  import opened Basics
  import opened TradeStore
  import opened DcaProtocol
  import opened DcaRuns

  function Total(adopted: seq<Adoption>): real {
    if adopted == [] then 0.0 else Total(adopted[..|adopted| - 1]) + adopted[|adopted| - 1].quantity
  }

  ghost predicate IsAdopted(adopted: seq<Adoption>, order: nat) {
    exists i | 0 <= i < |adopted| :: adopted[i].order == order
  }

  ghost predicate OnceEach(adopted: seq<Adoption>) {
    forall i, j | 0 <= i < j < |adopted| :: adopted[i].order != adopted[j].order
  }

  /** The books are right: the quantity is the first entry plus every adopted fill, each adopted once. */
  ghost predicate Books(w: World, base: real) {
    w.row.quantity == base + Total(w.adopted) && OnceEach(w.adopted)
  }

  lemma AdoptOne(adopted: seq<Adoption>, a: Adoption)
    requires OnceEach(adopted)
    ensures OnceEach(adopted + [a]) <==> !IsAdopted(adopted, a.order)
    ensures Total(adopted + [a]) == Total(adopted) + a.quantity
    ensures forall o: nat :: IsAdopted(adopted + [a], o) <==> o == a.order || IsAdopted(adopted, o)
  {
    var more := adopted + [a];
    assert more[..|adopted|] == adopted;
    assert more[|adopted|] == a;
    forall o: nat | IsAdopted(more, o) && o != a.order ensures IsAdopted(adopted, o) {
      var i :| 0 <= i < |more| && more[i].order == o;
      assert adopted[i].order == o;
    }
    forall o: nat | IsAdopted(adopted, o) ensures IsAdopted(more, o) {
      var i :| 0 <= i < |adopted| && adopted[i].order == o;
      assert more[i].order == o;
    }
    if IsAdopted(adopted, a.order) {
      var i :| 0 <= i < |adopted| && adopted[i].order == a.order;
      assert more[i].order == more[|adopted|].order;
    } else {
      forall i | 0 <= i < |adopted| ensures adopted[i].order != a.order {}
    }
  }

  // ---- The exact condition ----

  /** The step writes a reported fill to the row. */
  predicate Adopts(w: World, s: Step) {
    match s
    case FilledNow(answer, quantity, persisted) =>
      persisted && w.monitor.Sent? && quantity > 0.0 && Answers(w.orders, answer, w.monitor.step, Filled)
    case RaisedAfterFill(answer, quantity, persisted, reverted) =>
      persisted && w.monitor.Sent? && quantity > 0.0 && Answers(w.orders, answer, w.monitor.step, Filled)
    case LookupFilled(answer, quantity, persisted) =>
      && persisted && w.reconciler.Looking? && w.reconciler.snapshot.meta.uncertain.Some? && quantity > 0.0
      && Answers(w.orders, answer, w.reconciler.snapshot.meta.uncertain.value.step, Filled)
    case _ => false
  }

  /** The order it adopts was not adopted before, and the quantity it adds to is the stored one. */
  ghost predicate FreshAdoption(w: World, s: Step) {
    Adopts(w, s) ==>
      && !IsAdopted(w.adopted, s.answer)
      && (if s.LookupFilled? then w.reconciler.snapshot.quantity else w.monitor.copy.quantity) == w.row.quantity
  }

  /** Every step of every thread keeps the books right if and only if it adopts, if it does, an order not
      yet adopted from a copy whose quantity is current. */
  lemma {:induction false} NextKeepsBooksIff(w: World, s: Step, base: real)
    requires Books(w, base)
    ensures Books(Next(w, s), base) <==> FreshAdoption(w, s)
  {
    hide OnceEach, IsAdopted, Total, Claim;
    if Adopts(w, s) {
      AdoptOne(w.adopted, Adoption(s.answer, s.quantity));
    } else {
      OnlyAdoptionsBook(w, s);
    }
    hide Answers;
  }

  lemma OnlyAdoptionsBook(w: World, s: Step)
    requires !Adopts(w, s)
    ensures Next(w, s).adopted == w.adopted && Next(w, s).row.quantity == w.row.quantity
  {}

  ghost predicate BooksThroughout(quantity: real, steps: seq<Step>) {
    forall n | 0 <= n <= |steps| :: Books(Run(Opened(quantity), steps[..n]), quantity)
  }

  ghost predicate FreshThroughout(quantity: real, steps: seq<Step>) {
    forall n | 0 <= n < |steps| :: FreshAdoption(Run(Opened(quantity), steps[..n]), steps[n])
  }

  /** Quantity conservation over whole runs, exactly: the books are right all along if and only if every
      adoption is fresh. */
  lemma {:induction false} EveryRunBooksIff(quantity: real, steps: seq<Step>)
    ensures BooksThroughout(quantity, steps) <==> FreshThroughout(quantity, steps)
  {
    if steps == [] {
      assert Books(Opened(quantity), quantity);
      assert forall n | n == 0 :: steps[..n] == [];
    } else {
      var m := |steps| - 1;
      EveryRunBooksIff(quantity, steps[..m]);
      BooksStep(quantity, steps);
      FreshStep(quantity, steps);
      if BooksThroughout(quantity, steps[..m]) {
        assert steps[..m][..m] == steps[..m];
        NextKeepsBooksIff(Run(Opened(quantity), steps[..m]), steps[m], quantity);
      }
      hide BooksThroughout, FreshThroughout, Books, FreshAdoption, Next;
    }
  }

  lemma BooksStep(quantity: real, steps: seq<Step>)
    requires steps != []
    ensures BooksThroughout(quantity, steps)
            <==> BooksThroughout(quantity, steps[..|steps| - 1]) && Books(Run(Opened(quantity), steps), quantity)
  {
    hide Books, Run;
    var m := |steps| - 1;
    assert steps[..|steps|] == steps;
    forall n | 0 <= n <= m ensures steps[..m][..n] == steps[..n] {}
  }

  lemma FreshStep(quantity: real, steps: seq<Step>)
    requires steps != []
    ensures var m := |steps| - 1;
            FreshThroughout(quantity, steps)
            <==> FreshThroughout(quantity, steps[..m]) && FreshAdoption(Run(Opened(quantity), steps[..m]), steps[m])
  {
    hide FreshAdoption, Run;
    var m := |steps| - 1;
    forall n | 0 <= n < m ensures steps[..m][..n] == steps[..n] && steps[..m][n] == steps[n] {}
  }

  // ---- What keeps adoptions fresh ----

  /** The step restores the mark of an order adopted meanwhile: a claim, from the copy read before it, or
      any other writer of whole metadata. */
  ghost predicate RestoresAdopted(w: World, s: Step) {
    match s
    case TickClaim =>
      && w.monitor.Read?
      && Claim(w.row, w.monitor.stage, w.monitor.stage + 1, w.monitor.copy.meta).1
      && w.monitor.copy.meta.uncertain.Some?
      && IsAdopted(w.adopted, w.monitor.copy.meta.uncertain.value.order)
    case CopyWrite(k, persisted) =>
      && persisted && k in w.copies && w.copies[k].uncertain.Some?
      && IsAdopted(w.adopted, w.copies[k].uncertain.value.order)
    case _ => false
  }

  /** Every adopted order was filled. */
  ghost predicate AllFilled(adopted: seq<Adoption>, orders: seq<Order>) {
    forall o: nat | IsAdopted(adopted, o) :: o < |orders| && orders[o].fate == Filled
  }

  /** The books are right, no stored mark is of an adopted order, and whoever may adopt next has the
      current quantity. */
  ghost predicate Conserved(w: World, base: real) {
    && Books(w, base)
    && AllFilled(w.adopted, w.orders)
    && (w.row.meta.uncertain.Some? ==> !IsAdopted(w.adopted, w.row.meta.uncertain.value.order))
    && (!w.monitor.Resting? && w.monitor.copy.meta.uncertain.None? ==>
          w.monitor.copy.quantity == w.row.quantity)
    && (w.monitor.Sent? ==> !IsAdopted(w.adopted, w.monitor.order))
    && (!w.reconciler.Asleep? ==> w.reconciler.snapshot.quantity == w.row.quantity)
    && (w.reconciler.Looking? && w.reconciler.snapshot.meta.uncertain.Some? ==>
          !IsAdopted(w.adopted, w.reconciler.snapshot.meta.uncertain.value.order))
  }

  lemma SettleKeepsFilled(adopted: seq<Adoption>, orders: seq<Order>, i: nat, quantity: real)
    requires AllFilled(adopted, orders) && OnceEach(adopted) && !IsAdopted(adopted, i)
    requires MayBecome(orders, i, Filled)
    ensures AllFilled(adopted, Settle(orders, i, Filled))
    ensures AllFilled(adopted + [Adoption(i, quantity)], Settle(orders, i, Filled))
  {
    AdoptOne(adopted, Adoption(i, quantity));
  }

  /** A fill through either path books one more adoption and keeps the books right. */
  lemma {:induction false} DirectFillConserves(w: World, s: Step, base: real)
    requires Inv(w) && Conserved(w, base) && s.FilledNow?
    ensures Conserved(Next(w, s), base)
  {
    hide AtMostOnce, Live, MarkOk, CopyOk, OnceEach, IsAdopted, Total, AllFilled, Settle;
    if w.monitor.Sent? && Answers(w.orders, s.answer, w.monitor.step, Filled) {
      FillIsLatest(w.orders, s.answer, w.monitor.order);
      AdoptOne(w.adopted, Adoption(s.answer, s.quantity));
      SettleKeepsFilled(w.adopted, w.orders, s.answer, s.quantity);
    }
  }

  lemma MarkIsLatest(w: World, mark: Uncertain, answer: nat)
    requires Inv(w) && !w.reconciler.Asleep? && w.reconciler.snapshot.meta.uncertain == Some(mark)
    requires Answers(w.orders, answer, mark.step, Filled)
    ensures answer == mark.order
  {
    FillIsLatest(w.orders, answer, mark.order);
  }

  lemma {:induction false} LookupFillConserves(w: World, s: Step, base: real)
    requires Inv(w) && Conserved(w, base) && s.LookupFilled?
    ensures Conserved(Next(w, s), base)
  {
    hide AtMostOnce, Live, MarkOk, CopyOk, OnceEach, IsAdopted, Total, AllFilled, Settle;
    if w.reconciler.Looking? && w.reconciler.snapshot.meta.uncertain.Some? {
      var mark := w.reconciler.snapshot.meta.uncertain.value;
      if Answers(w.orders, s.answer, mark.step, Filled) {
        MarkIsLatest(w, mark, s.answer);
        AdoptOne(w.adopted, Adoption(s.answer, s.quantity));
        SettleKeepsFilled(w.adopted, w.orders, s.answer, s.quantity);
      }
    }
  }

  /** While the protocol's invariant holds, a step keeps all of that if and only if it does not restore the
      mark of an adopted order. */
  lemma {:induction false} NextConservesIff(w: World, s: Step, base: real)
    requires Inv(w) && Conserved(w, base)
    ensures Conserved(Next(w, s), base) <==> !RestoresAdopted(w, s)
  {
    hide AtMostOnce, Live, MarkOk, CopyOk, OnceEach, IsAdopted, Total;
    if s.FilledNow? {
      DirectFillConserves(w, s, base);
    } else if s.RaisedAfterFill? {
      DirectFillConserves(w, FilledNow(s.answer, s.quantity, s.persisted), base);
    } else if s.LookupFilled? {
      LookupFillConserves(w, s, base);
    }
  }

  ghost predicate NeverRestores(quantity: real, steps: seq<Step>) {
    forall n | 0 <= n < |steps| :: !RestoresAdopted(Run(Opened(quantity), steps[..n]), steps[n])
  }

  /** In every run that neither harms the protocol nor restores an adopted mark, the traded quantity is the
      first entry plus every adopted fill, and each fill is adopted once, directly or by lookup. */
  lemma {:induction false} EveryRunConserves(quantity: real, steps: seq<Step>)
    requires NeverHarms(quantity, steps) && NeverRestores(quantity, steps)
    ensures Conserved(Run(Opened(quantity), steps), quantity)
    ensures Books(Run(Opened(quantity), steps), quantity)
  {
    if steps != [] {
      var n := |steps| - 1;
      forall i | 0 <= i < n ensures steps[..n][i] == steps[i] && steps[..n][..i] == steps[..i] {}
      NeverHarmsPrefix(quantity, steps);
      EveryRunConserves(quantity, steps[..n]);
      RunKeepsInv(quantity, steps[..n]);
      NextConservesIff(Run(Opened(quantity), steps[..n]), steps[n], quantity);
    }
  }

  // ---- Runs that break the books ----

  /** Any writer that restores an adopted mark gets the same fill adopted a second time by the next
      reconcile: a claim with its older copy, or a write-back of older metadata. */
  lemma RestoredMarkAdoptsTwice(w: World, s: Step, base: real, quantity: real)
    requires Inv(w) && Conserved(w, base) && RestoresAdopted(w, s) && quantity > 0.0 && w.reconciler.Asleep?
    ensures var mark := Next(w, s).row.meta.uncertain;
            && mark.Some?
            && !OnceEach(Run(w, [s, ReconcileRead, LookupFilled(mark.value.order, quantity, true)]).adopted)
  {
    RestoredIsStored(w, s);
    hide Inv;
    var mark := Next(w, s).row.meta.uncertain.value;
    var again := LookupFilled(mark.order, quantity, true);
    RunOf3(w, s, ReconcileRead, again);
    var looking := Next(Next(w, s), ReconcileRead);
    assert looking.reconciler == Looking(Next(w, s).row);
    AdoptOne(w.adopted, Adoption(mark.order, quantity));
    hide OnceEach, IsAdopted;
  }

  /** The restored mark is stored, and a lookup for its stage can still report its order filled. */
  lemma RestoredIsStored(w: World, s: Step)
    requires Inv(w) && RestoresAdopted(w, s) && AllFilled(w.adopted, w.orders)
    ensures var n := Next(w, s);
            && n.row.meta.uncertain.Some? && n.orders == w.orders && n.adopted == w.adopted
            && n.reconciler == w.reconciler
            && IsAdopted(w.adopted, n.row.meta.uncertain.value.order)
            && Answers(w.orders, n.row.meta.uncertain.value.order, n.row.meta.uncertain.value.step, Filled)
  {
    if s.CopyWrite? {
      assert CopyOk(w.copies[s.writer].uncertain, w.orders);
    }
  }

  /** A claim restores one when the fill is adopted between the tick's read and its claim. */
  lemma ReviveIsReachable(quantity: real, filled: real)
    requires filled > 0.0
    ensures RestoresAdopted(Run(Opened(quantity),
              [TickRead, TickClaim, Submit] + [UnknownNow(true), ReconcileRead, TickRead]
              + [LookupFilled(0, filled, true)]), TickClaim)
  {
    var w0 := Opened(quantity);
    var adopt := LookupFilled(0, filled, true);
    Replay(w0, [TickRead, TickClaim, Submit] + [UnknownNow(true), ReconcileRead, TickRead], [adopt]);
    ReadWhileLooking(quantity);
    var w2 := Run(w0, [TickRead, TickClaim, Submit] + [UnknownNow(true), ReconcileRead, TickRead]);
    RunOf1(w2, adopt);
    var w3 := Next(w2, adopt);
    assert w3.adopted[0].order == 0;
  }

  lemma ReadWhileLooking(quantity: real)
    ensures var w := Run(Opened(quantity), [TickRead, TickClaim, Submit] + [UnknownNow(true), ReconcileRead, TickRead]);
            && w.orders == [Order(2, Open)] && w.adopted == []
            && w.row == TradeRow(Some(2), Meta(Some(2), Some(2), Some(Uncertain(2, 0))), quantity)
            && w.monitor == Read(w.row, 2) && w.reconciler == Looking(w.row)
  {
    FirstAddSent(quantity);
    hide Inv;
    Replay(Opened(quantity), [TickRead, TickClaim, Submit], [UnknownNow(true), ReconcileRead, TickRead]);
    RunOf3(Run(Opened(quantity), [TickRead, TickClaim, Submit]), UnknownNow(true), ReconcileRead, TickRead);
  }

  /** A write-back restores one when its copy was read while the mark was stored. */
  lemma WriteBackIsReachable(quantity: real, filled: real)
    requires filled > 0.0
    ensures var w := Run(Opened(quantity), [TickRead, TickClaim, Submit]
                                           + [UnknownNow(true), CopyRead(0), ReconcileRead]
                                           + [LookupFilled(0, filled, true)]);
            && Inv(w) && Conserved(w, quantity) && w.reconciler.Asleep? && RestoresAdopted(w, CopyWrite(0, true))
  {
    AdoptedWithCopy(quantity, filled);
    hide Inv, Run;
    AdoptOne([], Adoption(0, filled));
    assert [] + [Adoption(0, filled)] == [Adoption(0, filled)];
  }

  /** A raise after the fill whose revert goes through gets the stage submitted again, and a lookup by the
      common client id reports the first order: it is adopted twice although no mark ever existed. */
  lemma {:induction false} RaisedFillAdoptedTwice(quantity: real, filled: real)
    requires filled > 0.0
    ensures var n := Run(Opened(quantity), [TickRead, TickClaim, Submit] + [RaisedAfterFill(0, filled, true, true)]
                                           + [TickRead, TickClaim, Submit] + [FilledNow(0, filled, true)]);
            && n.adopted == [Adoption(0, filled), Adoption(0, filled)]
            && n.row.quantity == quantity + filled + filled && !OnceEach(n.adopted)
  {
    var w0, tick := Opened(quantity), [TickRead, TickClaim, Submit];
    var raise, fill := RaisedAfterFill(0, filled, true, true), FilledNow(0, filled, true);
    Replay(w0, tick + [raise] + tick, [fill]);
    Replay(w0, tick + [raise], tick);
    RaisedOnce(quantity, filled);
    var w4 := Run(w0, tick + [raise]);
    RunOf3(w4, TickRead, TickClaim, Submit);
    SubmittedAgain(w4);
    var w7 := Run(w4, tick);
    RunOf1(w7, fill);
    hide Run;
    var twice := Next(w7, fill).adopted;
    assert twice == [Adoption(0, filled), Adoption(0, filled)] && twice[0].order == twice[1].order;
  }

  lemma RaisedOnce(quantity: real, filled: real)
    requires filled > 0.0
    ensures var w := Run(Opened(quantity), [TickRead, TickClaim, Submit] + [RaisedAfterFill(0, filled, true, true)]);
            && w.row == TradeRow(Some(1), Meta(Some(1), Some(1), None), quantity + filled)
            && w.orders == [Order(2, Filled)] && w.adopted == [Adoption(0, filled)] && w.monitor.Resting?
  {
    var raise := RaisedAfterFill(0, filled, true, true);
    Replay(Opened(quantity), [TickRead, TickClaim, Submit], [raise]);
    FirstAddSent(quantity);
    hide Inv;
    RunOf1(Run(Opened(quantity), [TickRead, TickClaim, Submit]), raise);
    hide Run;
  }

  lemma SubmittedAgain(w: World)
    requires w.monitor.Resting? && w.row == TradeRow(Some(1), Meta(Some(1), Some(1), None), w.row.quantity)
    ensures var n := Next(Next(Next(w, TickRead), TickClaim), Submit);
            && n.orders == w.orders + [Order(2, Open)] && n.adopted == w.adopted
            && n.monitor.Sent? && n.monitor.step == 2 && n.monitor.copy.quantity == w.row.quantity
            && n.row.quantity == w.row.quantity
  {
    var claimed := Next(Next(w, TickRead), TickClaim);
    assert claimed.monitor.Claimed? && claimed.monitor.step == 2;
  }

  /** Two adoptions at once lose one: the reconciler adopts while the monitor waits for its own answer, and
      the monitor then writes the quantity it read before. */
  lemma {:induction false} StaleQuantityLosesFill(w: World, base: real, a: nat, b: nat, one: real, two: real)
    requires Books(w, base) && w.monitor.Sent? && w.monitor.copy.quantity == w.row.quantity
    requires Adopts(w, LookupFilled(a, one, true)) && w.reconciler.snapshot.quantity == w.row.quantity
    requires !IsAdopted(w.adopted, a) && !IsAdopted(w.adopted, b) && a != b
    requires Adopts(w, FilledNow(b, two, true))
    ensures var n := Run(w, [LookupFilled(a, one, true), FilledNow(b, two, true)]);
            && OnceEach(n.adopted) && n.row.quantity == base + Total(n.adopted) - one
  {
    RunOf2(w, LookupFilled(a, one, true), FilledNow(b, two, true));
    AdoptOne(w.adopted, Adoption(a, one));
    AdoptOne(w.adopted + [Adoption(a, one)], Adoption(b, two));
    hide OnceEach, IsAdopted, Total;
  }
}
