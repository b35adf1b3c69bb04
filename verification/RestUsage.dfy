/** The used-weight governor: three lanes reserve request weight in one local 60-second deque,
    under per-lane budgets and shared ceilings, next to the weight the exchange reports. */
module RestUsage {
  import opened Basics
  import opened SlidingWindow

  datatype Component = Order | Hot | Normal

  datatype Limits = Limits(hard: nat, soft: nat, throttle: nat, order: nat, hot: nat, normal: nat) {
    function Budget(c: Component): nat {
      match c
      case Order => order
      case Hot => hot
      case Normal => normal
    }

    /** The shared ceiling a reservation on lane `c` must stay under. */
    function Ceiling(c: Component): nat {
      match c
      case Order => hard
      case Hot => Min(hard, soft)
      case Normal => Min(throttle, Min(hard, soft))
    }

    /** What every reachable history satisfies. */
    ghost predicate Guards(log: seq<Entry<Component>>) {
      && Guarded(log, {Normal}, normal)
      && Guarded(log, {Hot}, hot)
      && Guarded(log, {Hot, Normal}, Min(hard, soft))
    }

    /** What it satisfies only as long as recorded weight fits. */
    ghost predicate OrderGuarded(log: seq<Entry<Component>>) { Guarded(log, {Order}, order) }

    ghost predicate TotalGuarded(log: seq<Entry<Component>>) { Guarded(log, ALL, hard) }

    /** A reservation that was let through keeps every bound, and loses none it did not have. */
    lemma ReservationKeepsGuards(
      log: seq<Entry<Component>>, component: Component, w: nat, purgeAt: real, stampAt: real)
      requires Guards(log) && purgeAt <= stampAt
      requires forall i | 0 <= i < |log| :: log[i].at <= purgeAt
      requires Charge(log, ALL, purgeAt - SPAN, purgeAt) + w <= Ceiling(component)
      requires Charge(log, {component}, purgeAt - SPAN, purgeAt) + w <= Budget(component)
      ensures Guards(log + [Entry(stampAt, w, component)])
      ensures OrderGuarded(log + [Entry(stampAt, w, component)]) <==> OrderGuarded(log)
      ensures TotalGuarded(log + [Entry(stampAt, w, component)]) <==> TotalGuarded(log)
    {
      ReservationKeepsGuard(log, {Normal}, normal, component, w, purgeAt, stampAt);
      ReservationKeepsGuard(log, {Hot}, hot, component, w, purgeAt, stampAt);
      ReservationKeepsGuard(log, {Hot, Normal}, Min(hard, soft), component, w, purgeAt, stampAt);
      ReservationKeepsGuard(log, {Order}, order, component, w, purgeAt, stampAt);
      ReservationKeepsGuard(log, ALL, hard, component, w, purgeAt, stampAt);
    }

    lemma ReservationKeepsGuard(
      log: seq<Entry<Component>>, picks: set<Component>, cap: nat, component: Component, w: nat,
      purgeAt: real, stampAt: real)
      requires purgeAt <= stampAt
      requires forall i | 0 <= i < |log| :: log[i].at <= purgeAt
      requires || component !in picks
               || (picks == {component}
                   && Charge(log, {component}, purgeAt - SPAN, purgeAt) + w <= cap)
               || Charge(log, ALL, purgeAt - SPAN, purgeAt) + w <= cap
      ensures Guarded(log + [Entry(stampAt, w, component)], picks, cap) <==> Guarded(log, picks, cap)
    {
      assert picks <= ALL by {
        forall c | c in picks ensures c in ALL { assert c.Order? || c.Hot? || c.Normal?; }
      }
      var base := if picks == {component} then picks else ALL;
      ChargeWidens(log, picks, base, stampAt - SPAN, stampAt, purgeAt - SPAN, purgeAt);
      ChargeWidens(log, picks, ALL, stampAt - SPAN, stampAt, purgeAt - SPAN, purgeAt);
      GuardedStep(log, Entry(stampAt, w, component), picks, cap);
    }

    /** Weight recorded on the order lane never touches the scanner lanes' bounds, and keeps the order
        lane's, or the total's, exactly when it fits at its own instant. */
    lemma NoteKeepsGuardsIff(log: seq<Entry<Component>>, w: nat, at: real)
      requires Guards(log)
      ensures Guards(log + [Entry(at, w, Order)])
      ensures OrderGuarded(log + [Entry(at, w, Order)])
              <==> OrderGuarded(log) && Charge(log, {Order}, at - SPAN, at) + w <= order
      ensures TotalGuarded(log + [Entry(at, w, Order)])
              <==> TotalGuarded(log) && Charge(log, ALL, at - SPAN, at) + w <= hard
    {
      GuardedStep(log, Entry(at, w, Order), {Normal}, normal);
      GuardedStep(log, Entry(at, w, Order), {Hot}, hot);
      GuardedStep(log, Entry(at, w, Order), {Hot, Normal}, Min(hard, soft));
      GuardedStep(log, Entry(at, w, Order), {Order}, order);
      GuardedStep(log, Entry(at, w, Order), ALL, hard);
    }
  }

  const ALL := {Order, Hot, Normal}

  class RestUsageTracker {
    const limits: Limits
    const local: TimedDeque<Component>
    var usedWeight: int
    var usedWeightAt: real

    ghost predicate Valid()
      reads this, local
    {
      && local.Valid()
      && limits.Guards(local.log)
    }

    constructor (limits: Limits, ghost now: real)
      ensures Valid() && local.UpTo(now) && local.log == [] && this.limits == limits
      ensures fresh(local) && usedWeight == 0
    {
      this.limits := limits;
      local := new TimedDeque<Component>(now);
      usedWeight, usedWeightAt := 0, 0.0;
    }

    /** A header older than one span no longer counts. */
    ghost function Header(now: real): int
      reads this
    {
      if usedWeightAt > 0.0 && now - usedWeightAt >= SPAN then 0 else usedWeight
    }

    /** Weight the governor sees at `now`: the larger of the header and the local 60-second sum. */
    ghost function Projected(now: real, purgedAt: real): int
      reads this, local
    {
      Max(Header(now), Charge(local.log, ALL, purgedAt - SPAN, purgedAt))
    }

    /** What a reservation has to fit, on the fields: the weight the exchange reported less than 60
        seconds ago and the local sum of the last 60 seconds, each with the new weight on top, under the
        hard cap, off the order lane under the soft one, and on the normal lane under the throttle. */
    lemma ReservableIff(component: Component, weight: nat, decayAt: real, purgedAt: real)
      ensures var sum := Charge(local.log, {Order, Hot, Normal}, purgedAt - 60.0, purgedAt);
              var reported := usedWeightAt <= 0.0 || decayAt - usedWeightAt < 60.0;
              Projected(decayAt, purgedAt) + weight <= limits.Ceiling(component) <==>
                && sum + weight <= limits.hard && (reported ==> usedWeight + weight <= limits.hard)
                && (component != Order ==>
                      sum + weight <= limits.soft && (reported ==> usedWeight + weight <= limits.soft))
                && (component == Normal ==>
                      sum + weight <= limits.throttle && (reported ==> usedWeight + weight <= limits.throttle))
      ensures limits.Budget(component) == match component
                                          case Order => limits.order
                                          case Hot => limits.hot
                                          case Normal => limits.normal
    {
      hide Charge;
    }

    method DecayUsedWeight(now: real)
      modifies this`usedWeight, this`usedWeightAt
      ensures usedWeight == old(Header(now))
      ensures usedWeightAt == if old(usedWeightAt) > 0.0 && now - old(usedWeightAt) >= SPAN then 0.0
                              else old(usedWeightAt)
    {
      if usedWeightAt <= 0.0 {
        return;
      }
      if now - usedWeightAt >= SPAN {
        usedWeight, usedWeightAt := 0, 0.0;
      }
    }

    /** Decays the header, purges the deque and reports the larger of header and local sum. */
    method ProjectedUsedWeight(decayAt: real, purgeAt: real) returns (projected: int)
      requires Valid() && local.UpTo(decayAt) && decayAt <= purgeAt
      modifies this`usedWeight, this`usedWeightAt, local
      ensures Valid() && local.UpTo(purgeAt) && local.log == old(local.log)
      ensures local.horizon == purgeAt - SPAN
      ensures forall i | 0 <= i < |local.window| :: purgeAt - SPAN <= local.window[i].at
      ensures projected == old(Projected(decayAt, purgeAt))
      ensures projected >= Charge(local.log, {Order, Hot, Normal}, purgeAt - 60.0, purgeAt)
      ensures old(usedWeightAt) <= 0.0 || decayAt - old(usedWeightAt) < 60.0 ==> projected >= old(usedWeight)
      ensures usedWeight == old(Header(decayAt))
      ensures usedWeightAt == if old(usedWeightAt) > 0.0 && decayAt - old(usedWeightAt) >= SPAN then 0.0
                              else old(usedWeightAt)
    {
      DecayUsedWeight(decayAt);
      local.Purge(purgeAt);
      local.SumIsCharge(ALL, purgeAt);
      var sum := local.Sum(ALL);
      projected := Max(usedWeight, sum);
    }

    /** One locked reservation. It reads the clock three times: to decay the header, to purge the
        deque and to stamp the entry. It succeeds exactly when the lane's budget and the lane's
        ceiling hold over the whole history's last 60 seconds, not merely over the deque. */
    method TryReserve(component: Component, weight: int, decayAt: real, purgeAt: real, stampAt: real)
      returns (ok: bool)
      requires Valid() && local.UpTo(decayAt) && decayAt <= purgeAt <= stampAt
      modifies this`usedWeight, this`usedWeightAt, local
      ensures Valid() && local.UpTo(stampAt)
      ensures ok <==>
        && old(Projected(decayAt, purgeAt)) + AtLeastOne(weight) <= limits.Ceiling(component)
        && old(Charge(local.log, {component}, purgeAt - SPAN, purgeAt)) + AtLeastOne(weight)
             <= limits.Budget(component)
      ensures ok && (old(usedWeightAt) <= 0.0 || decayAt - old(usedWeightAt) < 60.0) ==>
                && old(usedWeight) + AtLeastOne(weight) <= limits.hard
                && (component != Order ==> old(usedWeight) + AtLeastOne(weight) <= limits.soft)
                && (component == Normal ==> old(usedWeight) + AtLeastOne(weight) <= limits.throttle)
      ensures local.log == if ok then old(local.log) + [Entry(stampAt, AtLeastOne(weight), component)]
                           else old(local.log)
      ensures limits.OrderGuarded(local.log) <==> old(limits.OrderGuarded(local.log))
      ensures limits.TotalGuarded(local.log) <==> old(limits.TotalGuarded(local.log))
      ensures usedWeight == old(Header(decayAt))
      ensures usedWeightAt == if old(usedWeightAt) > 0.0 && decayAt - old(usedWeightAt) >= SPAN then 0.0
                              else old(usedWeightAt)
    {
      hide Charge, Tally, Limits.Guards, Limits.OrderGuarded, Limits.TotalGuarded;
      var w := AtLeastOne(weight);
      ReservableIff(component, w, decayAt, purgeAt);
      var projected := ProjectedUsedWeight(decayAt, purgeAt);
      local.SumIsCharge({component}, purgeAt);
      var used := local.Sum({component});
      var refused :=
        || projected >= limits.hard || projected + w > limits.hard
        || (component != Order && (projected >= limits.soft || projected + w > limits.soft))
        || (component == Normal && (projected >= limits.throttle || projected + w > limits.throttle))
        || used + w > limits.Budget(component);
      ok := !refused;
      if ok {
        limits.ReservationKeepsGuards(local.log, component, w, purgeAt, stampAt);
        local.Append(stampAt, w, component);
      }
    }

    /** Weight sent on the order lane is recorded without asking any limit. */
    method NoteOutgoingWeight(weight: int, purgeAt: real, stampAt: real)
      requires Valid() && local.UpTo(purgeAt) && purgeAt <= stampAt
      modifies local
      ensures Valid() && local.UpTo(stampAt)
      ensures local.log == old(local.log) + [Entry(stampAt, AtLeastOne(weight), Order)]
      ensures limits.OrderGuarded(local.log)
              <==> old(limits.OrderGuarded(local.log)
                       && Charge(local.log, {Order}, stampAt - SPAN, stampAt) + AtLeastOne(weight) <= limits.order)
      ensures limits.TotalGuarded(local.log)
              <==> old(limits.TotalGuarded(local.log)
                       && Charge(local.log, ALL, stampAt - SPAN, stampAt) + AtLeastOne(weight) <= limits.hard)
    {
      hide Charge, Limits.Guards, Limits.OrderGuarded, Limits.TotalGuarded;
      local.Purge(purgeAt);
      limits.NoteKeepsGuardsIff(local.log, AtLeastOne(weight), stampAt);
      local.Append(stampAt, AtLeastOne(weight), Order);
    }

    /** A response header replaces the reported weight. The stamp is taken before the lock, so it
        may be older than the latest reservation. */
    method NoteUsedWeight(reported: int, stampAt: real)
      requires Valid()
      modifies this`usedWeight, this`usedWeightAt
      ensures Valid()
      ensures usedWeight == if reported > 0 then reported else old(usedWeight)
      ensures usedWeightAt == if reported > 0 then stampAt else old(usedWeightAt)
    {
      if reported > 0 {
        usedWeight, usedWeightAt := reported, stampAt;
      }
    }

    /** In every reachable state and for every closed window of 60 seconds, wherever it starts: the
        scanner lanes stay within their own budgets and, together, within the soft ceiling. */
    lemma EveryWindowWithinBudget(lo: real, hi: real)
      requires Valid() && hi <= lo + 60.0
      ensures Charge(local.log, {Normal}, lo, hi) <= limits.normal
      ensures Charge(local.log, {Hot}, lo, hi) <= limits.hot
      ensures Charge(local.log, {Hot, Normal}, lo, hi) <= Min(limits.hard, limits.soft)
    {
      EveryWindow(local.log, {Normal}, limits.normal, lo, hi);
      EveryWindow(local.log, {Hot}, limits.hot, lo, hi);
      EveryWindow(local.log, {Hot, Normal}, Min(limits.hard, limits.soft), lo, hi);
    }

    /** The order lane, or the grand total, is bounded over every window exactly when no recorded
        weight ever failed to fit. */
    lemma OrderAndTotalBoundedIff()
      requires Valid()
      ensures Bounded(local.log, {Order}, limits.order) <==> limits.OrderGuarded(local.log)
      ensures Bounded(local.log, ALL, limits.hard) <==> limits.TotalGuarded(local.log)
    {
      BoundedIffGuarded(local.log, {Order}, limits.order);
      BoundedIffGuarded(local.log, ALL, limits.hard);
    }
  }

  /** And it does fail: whatever the limits, one recorded weight keeps a history reachable and
      overflows a window by any amount. */
  lemma {:induction false} OrderLaneUnbounded(limits: Limits, over: nat, now: real)
    ensures var log := [Entry(now, limits.hard + over + 1, Order)];
            limits.Guards(log) && Charge(log, {Order}, now - SPAN, now) > limits.hard + over
  {
    var log := [Entry(now, limits.hard + over + 1, Order)];
    assert limits.Guards([]);
    limits.NoteKeepsGuardsIff([], limits.hard + over + 1, now);
    assert [] + log == log;
    hide Limits.Guards;
    assert log[..0] == [];
  }
}
