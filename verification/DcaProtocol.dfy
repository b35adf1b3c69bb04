/** Adding to a position in stages, with a crash or a lost write possible anywhere: the monitor claims a
    stage in the store before it submits, unknown outcomes are marked and later reconciled by lookup.
    One monitor and one reconciler interleave at every read and write of the store, together with any
    number of other writers that read the row's metadata and later write it back whole: take-profit
    locks, trailing, booking, finalisation, the watchdog. All submissions of a stage share one client
    id, and outcomes are looked up by it: an answer is about some order of the stage, not necessarily the
    latest. */
module DcaProtocol {
  import opened Basics
  import opened TradeStore

  /** What the exchange has definitely decided about an order. */
  datatype Fate = Open | Rejected | Filled

  datatype Order = Order(stage: int, fate: Fate)

  /** The monitor's position in one tick, with its private copies. */
  datatype Monitor =
    | Resting
    | Read(copy: TradeRow, stage: int)
    | Claimed(copy: TradeRow, step: int)
    | Sent(copy: TradeRow, step: int, order: nat)

  datatype Reconciler =
    | Asleep
    | Looking(snapshot: TradeRow)
    | Reverted(snapshot: TradeRow)

  datatype Adoption = Adoption(order: nat, quantity: real)

  datatype World = World(
    row: TradeRow, orders: seq<Order>, monitor: Monitor, reconciler: Reconciler,
    copies: map<nat, Meta>,   // metadata that other writers have read
    adopted: seq<Adoption>)

  datatype Step =
    | TickRead                                  // the monitor reads the row and a trigger is hit
    | TickClaim                                 // it claims the next stage
    | Refrain(reverted: bool)                   // a check after the claim fails
    | Submit                                    // it submits the order
    | RejectedNow(answer: nat, reverted: bool)  // definite reject: the claim is reverted
    | UnknownNow(persisted: bool)               // timeout or odd answer: marked uncertain
    | FilledNow(answer: nat, quantity: real, persisted: bool) // fill: adopted
    | RaisedAfterFill(answer: nat, quantity: real, persisted: bool, reverted: bool) // a helper raises
    | ReconcileRead                             // the reconciler finds an uncertain mark
    | LookupNothing                             // the lookup is inconclusive
    | LookupFilled(answer: nat, quantity: real, persisted: bool)
    | LookupRejected(answer: nat, reverted: bool)
    | ReconcileClear(persisted: bool)           // it writes its snapshot back without the mark
    | Resolve(order: nat, fate: Fate)           // the exchange settles an open order
    | CopyRead(writer: nat)                     // another writer reads the metadata
    | CopyWrite(writer: nat, persisted: bool)   // and writes it back whole
    | Crash(gone: set<nat>)                     // writers of the crashed process go with it

  const LAST_STAGE := 3

  /** The canonical stage, capped at the ladder's length. */
  function StageOf(row: TradeRow): int {
    if Current(row) > LAST_STAGE then LAST_STAGE else Current(row)
  }

  function Settle(orders: seq<Order>, i: nat, fate: Fate): seq<Order>
    requires i < |orders|
  {
    orders[i := orders[i].(fate := fate)]
  }

  predicate MayBecome(orders: seq<Order>, i: nat, fate: Fate) {
    i < |orders| && (orders[i].fate == Open || orders[i].fate == fate)
  }

  /** A lookup for a stage can report this fate of this order. */
  predicate Answers(orders: seq<Order>, answer: nat, stage: int, fate: Fate) {
    MayBecome(orders, answer, fate) && orders[answer].stage == stage
  }

  /** The conditional roll-back, unless the database loses it. */
  function RevertUnlessLost(row: TradeRow, step: int, reverted: bool): TradeRow {
    if reverted then Revert(row, step).0 else row
  }

  function Adopt(copy: TradeRow, step: int, quantity: real): TradeRow {
    TradeRow(Some(step), copy.meta.At(step).(uncertain := None), copy.quantity + quantity)
  }

  /** One atomic step; a step that is not enabled changes nothing. */
  function Next(w: World, s: Step): World {
    match s
    case TickRead =>
      if w.monitor.Resting? && StageOf(w.row) < LAST_STAGE then
        w.(monitor := Read(w.row, StageOf(w.row)))
      else w
    case TickClaim =>
      if !w.monitor.Read? then w
      else
        var (copy, stage) := (w.monitor.copy, w.monitor.stage);
        var (row, ok) := Claim(w.row, stage, stage + 1, copy.meta);
        if ok then
          w.(row := row, monitor := Claimed(copy.(meta := copy.meta.At(stage + 1)), stage + 1))
        else w.(monitor := Resting)
    case Refrain(reverted) =>
      if !w.monitor.Claimed? then w
      else if w.monitor.copy.meta.uncertain.Some? then w.(monitor := Resting)
      else w.(row := RevertUnlessLost(w.row, w.monitor.step, reverted), monitor := Resting)
    case Submit =>
      if !w.monitor.Claimed? then w
      else if w.monitor.copy.meta.uncertain.Some? then w.(monitor := Resting)
      else
        w.(orders := w.orders + [Order(w.monitor.step, Open)],
           monitor := Sent(w.monitor.copy, w.monitor.step, |w.orders|))
    case RejectedNow(answer, reverted) =>
      if !w.monitor.Sent? || !Answers(w.orders, answer, w.monitor.step, Rejected) then w
      else
        w.(orders := Settle(w.orders, answer, Rejected),
           row := RevertUnlessLost(w.row, w.monitor.step, reverted), monitor := Resting)
    case UnknownNow(persisted) =>
      if !w.monitor.Sent? then w
      else
        var mark := Uncertain(w.monitor.step, w.monitor.order);
        w.(row := if persisted then w.row.(meta := w.monitor.copy.meta.(uncertain := Some(mark))) else w.row,
           monitor := Resting)
    case FilledNow(answer, quantity, persisted) =>
      if !w.monitor.Sent? || quantity <= 0.0 || !Answers(w.orders, answer, w.monitor.step, Filled) then w
      else
        w.(orders := Settle(w.orders, answer, Filled),
           row := if persisted then Adopt(w.monitor.copy, w.monitor.step, quantity) else w.row,
           adopted := if persisted then w.adopted + [Adoption(answer, quantity)] else w.adopted,
           monitor := Resting)
    case RaisedAfterFill(answer, quantity, persisted, reverted) =>
      if !w.monitor.Sent? || quantity <= 0.0 || !Answers(w.orders, answer, w.monitor.step, Filled) then w
      else
        var row := if persisted then Adopt(w.monitor.copy, w.monitor.step, quantity) else w.row;
        w.(orders := Settle(w.orders, answer, Filled),
           row := RevertUnlessLost(row, w.monitor.step, reverted),
           adopted := if persisted then w.adopted + [Adoption(answer, quantity)] else w.adopted,
           monitor := Resting)
    case ReconcileRead =>
      if w.reconciler.Asleep? && w.row.meta.uncertain.Some? then w.(reconciler := Looking(w.row)) else w
    case LookupNothing =>
      if w.reconciler.Looking? then w.(reconciler := Asleep) else w
    case LookupFilled(answer, quantity, persisted) =>
      if !w.reconciler.Looking? || w.reconciler.snapshot.meta.uncertain.None? then w
      else
        var mark := w.reconciler.snapshot.meta.uncertain.value;
        if quantity <= 0.0 || !Answers(w.orders, answer, mark.step, Filled) then w
        else
          w.(orders := Settle(w.orders, answer, Filled),
             row := if persisted then Adopt(w.reconciler.snapshot, mark.step, quantity) else w.row,
             adopted := if persisted then w.adopted + [Adoption(answer, quantity)] else w.adopted,
             reconciler := Asleep)
    case LookupRejected(answer, reverted) =>
      if !w.reconciler.Looking? || w.reconciler.snapshot.meta.uncertain.None? then w
      else
        var mark := w.reconciler.snapshot.meta.uncertain.value;
        if !Answers(w.orders, answer, mark.step, Rejected) then w
        else
          w.(orders := Settle(w.orders, answer, Rejected),
             row := RevertUnlessLost(w.row, mark.step, reverted), reconciler := Reverted(w.reconciler.snapshot))
    case ReconcileClear(persisted) =>
      if !w.reconciler.Reverted? then w
      else
        w.(row := if persisted then w.row.(meta := w.reconciler.snapshot.meta.(uncertain := None)) else w.row,
           reconciler := Asleep)
    case Resolve(order, fate) =>
      if MayBecome(w.orders, order, fate) then w.(orders := Settle(w.orders, order, fate)) else w
    case CopyRead(k) => w.(copies := w.copies[k := w.row.meta])
    case CopyWrite(k, persisted) =>
      if k in w.copies && persisted then w.(row := w.row.(meta := w.copies[k])) else w
    case Crash(gone) => w.(monitor := Resting, reconciler := Asleep, copies := w.copies - gone)
  }

  function Run(w: World, steps: seq<Step>): World {
    if steps == [] then w else Next(Run(w, steps[..|steps| - 1]), steps[|steps| - 1])
  }

  /** A trade right after its first entry. */
  function Opened(quantity: real): World {
    World(TradeRow(Some(1), Meta(Some(1), Some(1), None), quantity), [], Resting, Asleep, map[], [])
  }

  /** Some order for the stage is open or filled. */
  ghost predicate Live(orders: seq<Order>, stage: int) {
    exists i | 0 <= i < |orders| :: orders[i].stage == stage && orders[i].fate != Rejected
  }

  ghost predicate AtMostOnce(orders: seq<Order>) {
    forall i, j | 0 <= i < j < |orders| && orders[i].stage == orders[j].stage ::
      orders[i].fate == Rejected
  }

  /** A mark points at the latest order, and nothing above its stage is live. */
  ghost predicate MarkOk(mark: Option<Uncertain>, orders: seq<Order>) {
    mark.Some? ==>
      && mark.value.order == |orders| - 1
      && orders[mark.value.order].stage == mark.value.step
      && forall s | s > mark.value.step :: !Live(orders, s)
  }

  /** A copied mark points at an order of its stage; if at the latest, it is as good as a stored one. */
  ghost predicate CopyOk(mark: Option<Uncertain>, orders: seq<Order>) {
    mark.Some? ==>
      && mark.value.order < |orders| && orders[mark.value.order].stage == mark.value.step
      && (mark.value.order == |orders| - 1 ==> MarkOk(mark, orders))
  }

  ghost predicate Inv(w: World) {
    && AtMostOnce(w.orders)
    && (forall s :: Live(w.orders, s) ==> s <= ColumnOf(w.row))
    && MarkOk(w.row.meta.uncertain, w.orders)
    && (w.monitor.Read? || w.monitor.Claimed? ==> MarkOk(w.monitor.copy.meta.uncertain, w.orders))
    && (w.monitor.Claimed? ==> !Live(w.orders, w.monitor.step))
    && (!w.reconciler.Asleep? ==>
          && w.row.meta.uncertain.Some? && w.reconciler.snapshot.meta.uncertain.Some?
          && MarkOk(w.reconciler.snapshot.meta.uncertain, w.orders))
    && (!w.monitor.Resting? && w.monitor.copy.meta.uncertain.None? ==>
          w.reconciler.Asleep? && w.row.meta.uncertain.None?)
    && (w.monitor.Sent? ==>
          && w.monitor.copy.meta.uncertain.None?
          && w.monitor.order == |w.orders| - 1 && w.orders[w.monitor.order].stage == w.monitor.step)
    && ((w.monitor.Claimed? || w.monitor.Sent?) && w.monitor.copy.meta.uncertain.None? ==>
          ColumnOf(w.row) == w.monitor.step && 2 <= w.monitor.step <= LAST_STAGE)
    && (forall k | k in w.copies :: CopyOk(w.copies[k].uncertain, w.orders))
  }

  lemma SettleKeeps(orders: seq<Order>, i: nat, fate: Fate)
    requires MayBecome(orders, i, fate) && AtMostOnce(orders)
    ensures AtMostOnce(Settle(orders, i, fate))
    ensures forall s :: Live(Settle(orders, i, fate), s) ==> Live(orders, s)
    ensures fate == Rejected && i == |orders| - 1 ==> !Live(Settle(orders, i, fate), orders[i].stage)
  {
    var settled := Settle(orders, i, fate);
    forall s | Live(settled, s) ensures Live(orders, s) {
      var j :| 0 <= j < |settled| && settled[j].stage == s && settled[j].fate != Rejected;
      assert orders[j].stage == s && orders[j].fate != Rejected;
    }
  }

  lemma SubmitKeeps(orders: seq<Order>, stage: int)
    requires AtMostOnce(orders) && !Live(orders, stage)
    ensures AtMostOnce(orders + [Order(stage, Open)])
    ensures forall s :: Live(orders + [Order(stage, Open)], s) ==> s == stage || Live(orders, s)
  {
    var more := orders + [Order(stage, Open)];
    forall s | Live(more, s) && s != stage ensures Live(orders, s) {
      var i :| 0 <= i < |more| && more[i].stage == s && more[i].fate != Rejected;
      assert orders[i].stage == s && orders[i].fate != Rejected;
    }
  }

  /** The latest order of a stage is the only one of it that is not rejected. */
  lemma LatestIsLive(orders: seq<Order>, i: nat)
    requires AtMostOnce(orders) && i == |orders| - 1
    ensures Live(orders, orders[i].stage) <==> orders[i].fate != Rejected
    ensures forall k: nat | k < i && orders[k].stage == orders[i].stage :: orders[k].fate == Rejected
  {}

  /** A fill can only be reported of the latest order, whatever is looked up. */
  lemma FillIsLatest(orders: seq<Order>, answer: nat, i: nat)
    requires AtMostOnce(orders) && i == |orders| - 1 && Answers(orders, answer, orders[i].stage, Filled)
    ensures answer == i
  {}

  /** The step rolls a stage back although an order of it may still fill, or has: a helper raises after
      a fill, or a rejection is reported of an earlier order of the stage while the latest lives. */
  predicate RevertsLive(w: World, s: Step) {
    match s
    case RaisedAfterFill(answer, quantity, persisted, reverted) =>
      && reverted && w.monitor.Sent? && quantity > 0.0 && Answers(w.orders, answer, w.monitor.step, Filled)
      && Revert(if persisted then Adopt(w.monitor.copy, w.monitor.step, quantity) else w.row, w.monitor.step).1
    case RejectedNow(answer, reverted) =>
      && reverted && w.monitor.Sent? && Answers(w.orders, answer, w.monitor.step, Rejected)
      && Revert(w.row, w.monitor.step).1
      && answer != w.monitor.order < |w.orders| && w.orders[w.monitor.order].fate != Rejected
    case LookupRejected(answer, reverted) =>
      && reverted && w.reconciler.Looking? && w.reconciler.snapshot.meta.uncertain.Some?
      && var mark := w.reconciler.snapshot.meta.uncertain.value;
      && Answers(w.orders, answer, mark.step, Rejected) && Revert(w.row, mark.step).1
      && answer != mark.order < |w.orders| && w.orders[mark.order].fate != Rejected
    case _ => false
  }

  /** The step misplaces a mark: it restores one of an earlier order, erases the one the reconciler is
      working on, or restores one behind the back of a monitor that saw none. */
  predicate MisplacesMark(w: World, s: Step) {
    && s.CopyWrite? && s.persisted && s.writer in w.copies
    && var mark := w.copies[s.writer].uncertain;
       || (mark.Some? && mark.value.order + 1 != |w.orders|)
       || (mark.None? && !w.reconciler.Asleep?)
       || (mark.Some? && !w.monitor.Resting? && w.monitor.copy.meta.uncertain.None?)
  }

  lemma {:induction false} CopyWriteKeepsInvIff(w: World, s: Step)
    requires Inv(w) && s.CopyWrite?
    ensures Inv(Next(w, s)) <==> !MisplacesMark(w, s)
  {
    if s.persisted && s.writer in w.copies {
      assert CopyOk(w.copies[s.writer].uncertain, w.orders);
    }
  }

  lemma SubmitKeepsCopies(w: World, stage: int)
    requires forall k | k in w.copies :: CopyOk(w.copies[k].uncertain, w.orders)
    ensures forall k | k in w.copies :: CopyOk(w.copies[k].uncertain, w.orders + [Order(stage, Open)])
  {
    forall k | k in w.copies ensures CopyOk(w.copies[k].uncertain, w.orders + [Order(stage, Open)]) {
      assert CopyOk(w.copies[k].uncertain, w.orders);
    }
  }

  lemma SettleKeepsCopies(copies: map<nat, Meta>, orders: seq<Order>, i: nat, fate: Fate)
    requires MayBecome(orders, i, fate) && AtMostOnce(orders)
    requires forall k | k in copies :: CopyOk(copies[k].uncertain, orders)
    ensures forall k | k in copies :: CopyOk(copies[k].uncertain, Settle(orders, i, fate))
  {
    SettleKeeps(orders, i, fate);
    forall k | k in copies ensures CopyOk(copies[k].uncertain, Settle(orders, i, fate)) {
      assert CopyOk(copies[k].uncertain, orders);
    }
  }

  lemma {:induction false} DirectFillKeepsInv(w: World, s: Step)
    requires Inv(w) && s.FilledNow?
    ensures Inv(Next(w, s))
  {
    if w.monitor.Sent? && Answers(w.orders, s.answer, w.monitor.step, Filled) {
      FillIsLatest(w.orders, s.answer, w.monitor.order);
      SettleKeeps(w.orders, s.answer, Filled);
      SettleKeepsCopies(w.copies, w.orders, s.answer, Filled);
    }
  }

  lemma {:induction false} LookupFillKeepsInv(w: World, s: Step)
    requires Inv(w) && s.LookupFilled?
    ensures Inv(Next(w, s))
  {
    if w.reconciler.Looking? {
      var mark := w.reconciler.snapshot.meta.uncertain.value;
      if Answers(w.orders, s.answer, mark.step, Filled) {
        FillIsLatest(w.orders, s.answer, mark.order);
        SettleKeeps(w.orders, s.answer, Filled);
        SettleKeepsCopies(w.copies, w.orders, s.answer, Filled);
      }
    }
  }

  lemma {:induction false} RaiseKeepsInvIff(w: World, s: Step)
    requires Inv(w) && s.RaisedAfterFill?
    ensures Inv(Next(w, s)) <==> !RevertsLive(w, s)
  {
    var fill := FilledNow(s.answer, s.quantity, s.persisted);
    DirectFillKeepsInv(w, fill);
    if RevertsLive(w, s) {
      FillIsLatest(w.orders, s.answer, w.monitor.order);
      var next := Next(w, s);
      assert next.orders[w.monitor.order].stage == w.monitor.step && next.orders[w.monitor.order].fate == Filled;
      assert Live(next.orders, w.monitor.step);
      assert ColumnOf(next.row) == w.monitor.step - 1;
    } else {
      assert Next(w, s) == Next(w, fill);
    }
  }

  lemma {:induction false} RejectKeepsInvIff(w: World, s: Step)
    requires Inv(w) && s.RejectedNow?
    ensures Inv(Next(w, s)) <==> !RevertsLive(w, s)
  {
    if w.monitor.Sent? && Answers(w.orders, s.answer, w.monitor.step, Rejected) {
      LatestIsLive(w.orders, w.monitor.order);
      SettleKeeps(w.orders, s.answer, Rejected);
      SettleKeepsCopies(w.copies, w.orders, s.answer, Rejected);
      var next := Next(w, s);
      LatestIsLive(next.orders, w.monitor.order);
      if RevertsLive(w, s) {
        assert ColumnOf(next.row) == w.monitor.step - 1;
      }
    }
  }

  lemma {:induction false} LookupRejectKeepsInvIff(w: World, s: Step)
    requires Inv(w) && s.LookupRejected?
    ensures Inv(Next(w, s)) <==> !RevertsLive(w, s)
  {
    if w.reconciler.Looking? {
      var mark := w.reconciler.snapshot.meta.uncertain.value;
      if Answers(w.orders, s.answer, mark.step, Rejected) {
        LatestIsLive(w.orders, mark.order);
        SettleKeeps(w.orders, s.answer, Rejected);
      SettleKeepsCopies(w.copies, w.orders, s.answer, Rejected);
        var next := Next(w, s);
        LatestIsLive(next.orders, mark.order);
        if RevertsLive(w, s) {
          assert ColumnOf(next.row) == mark.step - 1;
        }
      }
    }
  }

  lemma SubmitKeepsInv(w: World)
    requires Inv(w)
    ensures Inv(Next(w, Submit))
  {
    if w.monitor.Claimed? && w.monitor.copy.meta.uncertain.None? {
      SubmitKeeps(w.orders, w.monitor.step);
      SubmitKeepsCopies(w, w.monitor.step);
    }
  }

  lemma ResolveKeepsInv(w: World, order: nat, fate: Fate)
    requires Inv(w)
    ensures Inv(Next(w, Resolve(order, fate)))
  {
    if MayBecome(w.orders, order, fate) {
      SettleKeeps(w.orders, order, fate);
      SettleKeepsCopies(w.copies, w.orders, order, fate);
    }
  }

  predicate Harms(w: World, s: Step) {
    RevertsLive(w, s) || MisplacesMark(w, s)
  }

  /** Every step of every thread keeps the invariant, in any interleaving and whichever writes are lost,
      if and only if it neither rolls a live stage back nor misplaces a mark. */
  lemma NextKeepsInvIff(w: World, s: Step)
    requires Inv(w)
    ensures Inv(Next(w, s)) <==> !Harms(w, s)
  {
    hide Inv, Next, RevertsLive, MisplacesMark;
    NoHarmElsewhere(w, s);
    match s
    case Submit => SubmitKeepsInv(w);
    case CopyWrite(k, persisted) => CopyWriteKeepsInvIff(w, s);
    case RejectedNow(answer, reverted) => RejectKeepsInvIff(w, s);
    case FilledNow(answer, quantity, persisted) => DirectFillKeepsInv(w, s);
    case RaisedAfterFill(answer, quantity, persisted, reverted) => RaiseKeepsInvIff(w, s);
    case LookupFilled(answer, quantity, persisted) => LookupFillKeepsInv(w, s);
    case LookupRejected(answer, reverted) => LookupRejectKeepsInvIff(w, s);
    case Resolve(order, fate) => ResolveKeepsInv(w, order, fate);
    case TickRead => MonitorKeepsInv(w, s);
    case TickClaim => MonitorKeepsInv(w, s);
    case Refrain(reverted) => MonitorKeepsInv(w, s);
    case UnknownNow(persisted) => MonitorKeepsInv(w, s);
    case _ => ReadersKeepInv(w, s);
  }

  lemma NoHarmElsewhere(w: World, s: Step)
    ensures RevertsLive(w, s) ==> s.RaisedAfterFill? || s.RejectedNow? || s.LookupRejected?
    ensures MisplacesMark(w, s) ==> s.CopyWrite?
  {}

  lemma MonitorKeepsInv(w: World, s: Step)
    requires Inv(w) && (s.TickRead? || s.TickClaim? || s.Refrain? || s.UnknownNow?)
    ensures Inv(Next(w, s))
  {}

  lemma ReadersKeepInv(w: World, s: Step)
    requires Inv(w) && (s.ReconcileRead? || s.LookupNothing? || s.ReconcileClear? || s.CopyRead? || s.Crash?)
    ensures Inv(Next(w, s))
  {}

  ghost predicate NeverHarms(quantity: real, steps: seq<Step>) {
    forall n | 0 <= n < |steps| :: !Harms(Run(Opened(quantity), steps[..n]), steps[n])
  }

  lemma {:induction false} RunKeepsInv(quantity: real, steps: seq<Step>)
    requires NeverHarms(quantity, steps)
    ensures Inv(Run(Opened(quantity), steps))
  {
    if steps != [] {
      var n := |steps| - 1;
      NeverHarmsPrefix(quantity, steps);
      RunKeepsInv(quantity, steps[..n]);
      hide Inv, Harms, Next;
      NextKeepsInvIff(Run(Opened(quantity), steps[..n]), steps[n]);
    }
  }

  lemma NeverHarmsPrefix(quantity: real, steps: seq<Step>)
    requires NeverHarms(quantity, steps) && steps != []
    ensures NeverHarms(quantity, steps[..|steps| - 1])
    ensures !Harms(Run(Opened(quantity), steps[..|steps| - 1]), steps[|steps| - 1])
  {
    hide Harms, Run;
    var n := |steps| - 1;
    forall i | 0 <= i < n ensures steps[..n][i] == steps[i] && steps[..n][..i] == steps[..i] {}
  }

  /** A rejection does no harm if it is about the latest order, as it is whenever that order is the
      stage's first: with a single order under the client id every answer is about it. */
  lemma FirstSubmissionIsSafe(w: World, s: Step)
    requires Inv(w) && (s.RejectedNow? || s.LookupRejected?)
    requires || s.answer == |w.orders| - 1
             || (w.orders != []
                 && forall i | 0 <= i < |w.orders| - 1 :: w.orders[i].stage != w.orders[|w.orders| - 1].stage)
    ensures !RevertsLive(w, s)
  {}

  /** DCA at most once: in every run that neither rolls a live stage back nor misplaces a mark, with
      crashes, unknown outcomes, lost writes, reverts, reconciles and stale metadata anywhere, a stage is
      submitted a second time only after its earlier order was definitely rejected. */
  lemma EveryRunAtMostOnce(quantity: real, steps: seq<Step>)
    requires NeverHarms(quantity, steps)
    ensures AtMostOnce(Run(Opened(quantity), steps).orders)
  {
    RunKeepsInv(quantity, steps);
  }

  /** While an uncertain mark is stored, nothing at all is submitted for the trade. */
  lemma MarkedNeverSubmits(quantity: real, steps: seq<Step>, s: Step)
    requires NeverHarms(quantity, steps)
    ensures var w := Run(Opened(quantity), steps);
            w.row.meta.uncertain.Some? ==> |Next(w, s).orders| == |w.orders|
  {
    RunKeepsInv(quantity, steps);
  }

  // ---- Unrolling runs ----

  lemma {:induction false} Replay(w: World, first: seq<Step>, second: seq<Step>)
    ensures Run(w, first + second) == Run(Run(w, first), second)
  {
    if second == [] {
      assert first + second == first;
    } else {
      var n := |second| - 1;
      Replay(w, first, second[..n]);
      assert (first + second)[..|first| + n] == first + second[..n];
    }
  }

  lemma RunOf3(w: World, a: Step, b: Step, c: Step)
    ensures Run(w, [a, b, c]) == Next(Next(Next(w, a), b), c)
  {
    RunOf2(w, a, b);
    assert [a, b, c][..2] == [a, b];
  }

  lemma RunOf1(w: World, a: Step)
    ensures Run(w, [a]) == Next(w, a)
  {
    assert [a][..0] == [];
  }

  lemma RunOf2(w: World, a: Step, b: Step)
    ensures Run(w, [a, b]) == Next(Next(w, a), b)
  {
    RunOf1(w, a);
    assert [a, b][..1] == [a];
  }
}
