/** The protective stop of an open trade: a ladder that lifts it to the rung below the take-profit a
    price has reached, and a trailing distance behind the best price seen. */
module StopRatchet {
  import opened Basics
  import opened Grid

  datatype Side = Long | Short

  /** What stays fixed between two take-profit finalisations. A level of 0 or below is not set. */
  datatype Plan = Plan(
    side: Side, entry: real, tp1: real, tp2: real, tp3: real, tick: real,
    breakEven: bool, trailing: bool, runner: bool, distance: Option<real>)
  {
    /** Levels lie in the direction of profit, each beyond the one before. */
    ghost predicate Ordered() {
      && entry > 0.0 && tick > 0.0
      && (side.Long? ==> entry < tp1 <= tp2 <= tp3)
      && (side.Short? ==> entry > tp1 >= tp2 >= tp3 > 0.0)
    }
  }

  datatype Stop = Stop(level: real, best: Option<real>)

  /** Protective prices move away from the market: a LONG stop down to the tick, a SHORT stop up. */
  function Protect(value: real, p: Plan): real {
    if p.tick <= 0.0 then value
    else if p.side.Long? then FloorTo(value, p.tick) else CeilTo(value, p.tick)
  }

  lemma ProtectIsMonotone(p: Plan, a: real, b: real)
    requires a <= b && p.tick > 0.0
    ensures Protect(a, p) <= Protect(b, p)
  {
    hide FloorTo, CeilTo, Multiple;
    FloorIsMonotone(a, b, p.tick);
    CeilIsMonotone(a, b, p.tick);
  }

  /** Rounding never moves a stop towards the market, by less than one tick, and never unsets it. */
  lemma ProtectMovesAway(p: Plan, value: real)
    requires p.tick > 0.0
    ensures p.side.Long? ==> value - p.tick < Protect(value, p) <= value
    ensures p.side.Short? ==> Protect(value, p) >= value && Protect(value, p) >= p.tick
    ensures p.side.Short? && value > 0.0 ==> Protect(value, p) < value + p.tick
  {
    FloorBounds(value, p.tick);
    CeilBounds(value, p.tick);
  }

  // ---- One tick ----

  function Reached(p: Plan, level: real, price: real): bool {
    level > 0.0 && if p.side.Long? then price >= level else price <= level
  }

  /** The stop is worse than the rung, or a SHORT's is not set. */
  function Behind(p: Plan, stop: real, rung: real): bool {
    if p.side.Long? then stop < rung else stop <= 0.0 || stop > rung
  }

  function LadderTarget(p: Plan, stop: real, price: real): Option<real> {
    if Reached(p, p.tp3, price) && p.tp2 > 0.0 && Behind(p, stop, p.tp2) then Some(p.tp2)
    else if Reached(p, p.tp2, price) && p.tp1 > 0.0 && Behind(p, stop, p.tp1) then Some(p.tp1)
    else if Reached(p, p.tp1, price) && p.entry > 0.0 && Behind(p, stop, p.entry) then Some(p.entry)
    else None
  }

  function Ladder(p: Plan, stop: real, price: real): real {
    if !p.breakEven then stop
    else
      var target := LadderTarget(p, stop, price);
      if target.Some? && Behind(p, stop, Protect(target.value, p)) then Protect(target.value, p) else stop
  }

  /** Trailing runs only in profit, or always for a runner. */
  function Trails(p: Plan, price: real): bool {
    && p.trailing && p.entry > 0.0 && p.distance.Some? && p.distance.value > 0.0
    && (p.runner || if p.side.Long? then price > p.entry else price < p.entry)
  }

  function BestOf(p: Plan, best: Option<real>): real { if best.Some? then best.value else p.entry }

  function Better(p: Plan, best: real, price: real): real {
    if p.side.Long? then MaxReal(best, price) else MinReal(best, price)
  }

  function Candidate(p: Plan, best: real): real
    requires p.distance.Some?
  {
    Protect(if p.side.Long? then best - p.distance.value else best + p.distance.value, p)
  }

  function Trail(p: Plan, s: Stop, price: real): Stop {
    if !Trails(p, price) then s
    else
      var best := Better(p, BestOf(p, s.best), price);
      var candidate := Candidate(p, best);
      Stop(
        if (if p.side.Long? then candidate > s.level else candidate < s.level) then candidate else s.level,
        if best == BestOf(p, s.best) then s.best else Some(best))
  }

  function Tick(p: Plan, s: Stop, price: real): Stop {
    Trail(p, s.(level := Ladder(p, s.level, price)), price)
  }

  /** The monitor's stop management, on the stored row of one trade. */
  class StopKeeper {
    const plan: Plan
    var stop: Stop

    constructor (plan: Plan, level: real)
      ensures this.plan == plan && stop == Stop(level, None)
    {
      this.plan, stop := plan, Stop(level, None);
    }

    method AdvanceProfitStopLadder(price: real)
      modifies this
      ensures stop == old(stop).(level := Ladder(plan, old(stop).level, price))
    {
      if !plan.breakEven {
        return;
      }
      var sl := stop.level;
      var target: Option<real> := None;
      if plan.side.Long? {
        if plan.tp1 > 0.0 && price >= plan.tp1 && plan.entry > 0.0 && sl < plan.entry {
          target := Some(plan.entry);
        }
        if plan.tp2 > 0.0 && price >= plan.tp2 && plan.tp1 > 0.0 && sl < plan.tp1 {
          target := Some(plan.tp1);
        }
        if plan.tp3 > 0.0 && price >= plan.tp3 && plan.tp2 > 0.0 && sl < plan.tp2 {
          target := Some(plan.tp2);
        }
      } else {
        if plan.tp1 > 0.0 && price <= plan.tp1 && plan.entry > 0.0 && (sl <= 0.0 || sl > plan.entry) {
          target := Some(plan.entry);
        }
        if plan.tp2 > 0.0 && price <= plan.tp2 && plan.tp1 > 0.0 && (sl <= 0.0 || sl > plan.tp1) {
          target := Some(plan.tp1);
        }
        if plan.tp3 > 0.0 && price <= plan.tp3 && plan.tp2 > 0.0 && (sl <= 0.0 || sl > plan.tp2) {
          target := Some(plan.tp2);
        }
      }
      if target.None? {
        return;
      }
      var level := Protect(target.value, plan);
      if plan.side.Long? && level <= sl {
        return;
      }
      if plan.side.Short? && sl > 0.0 && level >= sl {
        return;
      }
      stop := stop.(level := level);
    }

    method ApplyTrailingStop(price: real)
      requires plan.trailing && plan.entry > 0.0
      requires plan.runner || if plan.side.Long? then price > plan.entry else price < plan.entry
      modifies this
      ensures stop == Trail(plan, old(stop), price)
    {
      if plan.distance.None? || plan.distance.value <= 0.0 {
        return;
      }
      var best := if stop.best.Some? then stop.best.value else plan.entry;
      var moved := false;
      if (if plan.side.Long? then price > best else price < best) {
        best, moved := price, true;
      }
      var level := Protect(if plan.side.Long? then best - plan.distance.value else best + plan.distance.value, plan);
      if (if plan.side.Long? then level > stop.level else level < stop.level) {
        stop := stop.(level := level);
      }
      if moved {
        stop := stop.(best := Some(best));
      }
    }

    /** One pass over the trade; while further entries are planned the stop is held. */
    method Manage(price: real, hold: bool)
      modifies this
      ensures stop == if hold then old(stop) else Tick(plan, old(stop), price)
    {
      if hold {
        return;
      }
      AdvanceProfitStopLadder(price);
      if plan.trailing && plan.entry > 0.0 {
        if plan.runner || if plan.side.Long? then price > plan.entry else price < plan.entry {
          ApplyTrailingStop(price);
        }
      }
    }
  }

  // ---- Runs ----

  /** A price with the stop held or not, or the close worker writing an older best price back. */
  datatype Step = Price(price: real, hold: bool) | Overwritten(best: Option<real>)

  function Next(p: Plan, s: Stop, step: Step): Stop {
    match step
    case Price(price, hold) => if hold then s else Tick(p, s, price)
    case Overwritten(best) => s.(best := best)
  }

  function Run(p: Plan, s: Stop, steps: seq<Step>): Stop {
    if steps == [] then s else Next(p, Run(p, s, steps[..|steps| - 1]), steps[|steps| - 1])
  }

  /** The ratchet: over any sequence of prices, held or not, and whatever happens to the stored best
      price, a LONG stop never falls and a SHORT stop, once set, never rises and stays set. */
  lemma {:induction false} NeverMovesBack(p: Plan, s: Stop, steps: seq<Step>)
    requires p.tick > 0.0
    ensures p.side.Long? ==> Run(p, s, steps).level >= s.level
    ensures p.side.Short? && s.level > 0.0 ==> 0.0 < Run(p, s, steps).level <= s.level
  {
    if steps != [] {
      var before := Run(p, s, steps[..|steps| - 1]);
      NeverMovesBack(p, s, steps[..|steps| - 1]);
      var last := steps[|steps| - 1];
      if last.Price? && p.side.Short? {
        ProtectStaysSet(p);
      }
      hide Protect;
    }
  }

  lemma ProtectStaysSet(p: Plan)
    requires p.tick > 0.0 && p.side.Short?
    ensures forall value :: Protect(value, p) > 0.0
  {
    forall value ensures Protect(value, p) > 0.0 {
      ProtectMovesAway(p, value);
    }
  }

  /** The level below the highest take-profit a price has reached. */
  function Rung(p: Plan, price: real): Option<real> {
    if Reached(p, p.tp3, price) then Some(p.tp2)
    else if Reached(p, p.tp2, price) then Some(p.tp1)
    else if Reached(p, p.tp1, price) then Some(p.entry)
    else None
  }

  /** The tighter of two stops; anything is tighter than none. */
  function Tighten(p: Plan, stop: real, level: real): real {
    if p.side.Long? then MaxReal(stop, level) else if stop <= 0.0 then level else MinReal(stop, level)
  }

  /** Trailing tightens a stop but sets none for a SHORT. */
  function Follow(p: Plan, stop: real, level: real): real {
    if p.side.Short? && stop <= 0.0 then stop else Tighten(p, stop, level)
  }

  function RungStop(p: Plan, stop: real, extreme: Option<real>): real {
    if p.breakEven && extreme.Some? && Rung(p, extreme.value).Some?
    then Tighten(p, stop, Protect(Rung(p, extreme.value).value, p)) else stop
  }

  /** All that a run leaves behind: the best price, the best reference any trailing step has used since
      there is a stop, and the reference stored for the next one. */
  datatype Seen = Seen(extreme: Option<real>, used: Option<real>, stored: real)

  /** There is a stop to trail: a SHORT without one must first reach a take-profit. */
  predicate HasStop(p: Plan, level: real, seen: Seen) {
    p.side.Long? || RungStop(p, level, seen.extreme) > 0.0
  }

  function Note(p: Plan, level: real, seen: Seen, step: Step): Seen {
    match step
    case Overwritten(best) => seen.(stored := BestOf(p, best))
    case Price(price, hold) =>
      if hold then seen
      else
        var extreme := if seen.extreme.Some? then Better(p, seen.extreme.value, price) else price;
        if !Trails(p, price) then seen.(extreme := Some(extreme))
        else
          var best := Better(p, seen.stored, price);
          var used := if seen.used.Some? && HasStop(p, level, seen) then Better(p, seen.used.value, best) else best;
          Seen(Some(extreme), Some(used), best)
  }

  function SeenIn(p: Plan, s: Stop, steps: seq<Step>): Seen {
    if steps == [] then Seen(None, None, BestOf(p, s.best))
    else Note(p, s.level, SeenIn(p, s, steps[..|steps| - 1]), steps[|steps| - 1])
  }

  /** The stop in closed form: initial level, rung of the best price, best trailing reference less the
      distance — whichever is tightest. */
  function Reference(p: Plan, stop: real, seen: Seen): real {
    var rung := RungStop(p, stop, seen.extreme);
    if seen.used.Some? && p.distance.Some? then Follow(p, rung, Candidate(p, seen.used.value)) else rung
  }

  lemma LadderTightens(p: Plan, stop: real, price: real)
    requires p.Ordered()
    ensures Ladder(p, stop, price) == RungStop(p, stop, Some(price))
  {
    if Rung(p, price).Some? {
      ProtectMovesAway(p, Rung(p, price).value);
    }
    hide Protect;
  }

  lemma RungImproves(p: Plan, stop: real, extreme: real, price: real)
    requires p.Ordered()
    ensures RungStop(p, RungStop(p, stop, Some(extreme)), Some(price))
            == RungStop(p, stop, Some(Better(p, extreme, price)))
  {
    var a, b := Rung(p, extreme), Rung(p, price);
    if a.Some? && b.Some? {
      if a.value <= b.value { ProtectIsMonotone(p, a.value, b.value); }
      if b.value <= a.value { ProtectIsMonotone(p, b.value, a.value); }
    }
    if p.side.Short? {
      ProtectStaysSet(p);
    }
    hide Protect;
  }

  lemma CandidateImproves(p: Plan, best: real, price: real)
    requires p.tick > 0.0 && p.distance.Some?
    ensures p.side.Long? ==> Candidate(p, Better(p, best, price)) >= Candidate(p, best)
    ensures p.side.Short? ==> 0.0 < Candidate(p, Better(p, best, price)) <= Candidate(p, best)
  {
    var better := Better(p, best, price);
    var d := p.distance.value;
    if p.side.Long? {
      ProtectIsMonotone(p, best - d, better - d);
    } else {
      ProtectIsMonotone(p, better + d, best + d);
      ProtectStaysSet(p);
    }
  }

  /** What the ladder does to a stop that already trails: it acts on the rung part alone, unless the
      stop was not set at all. */
  lemma LadderUnderTrail(p: Plan, stop: real, candidate: real, price: real)
    requires p.Ordered() && (p.side.Short? ==> candidate > 0.0)
    ensures var after := RungStop(p, Follow(p, stop, candidate), Some(price));
            var rung := RungStop(p, stop, Some(price));
            after == (if p.side.Short? && stop <= 0.0 then rung else Follow(p, rung, candidate))
  {
    if p.side.Short? {
      ProtectStaysSet(p);
    }
    hide Protect, Rung;
  }

  /** Trailing behind two references in turn is trailing behind the better one. */
  lemma FollowTwice(p: Plan, stop: real, one: real, two: real)
    requires p.tick > 0.0 && p.distance.Some?
    ensures Follow(p, Follow(p, stop, Candidate(p, one)), Candidate(p, two))
            == Follow(p, stop, Candidate(p, Better(p, one, two)))
  {
    CandidateImproves(p, one, two);
    CandidateImproves(p, two, one);
    assert Better(p, one, two) == Better(p, two, one);
    hide Candidate;
  }

  /** A price that does not trail has reached no rung, if trailing is on at all. */
  lemma NoRungWithoutProfit(p: Plan, price: real)
    requires p.Ordered() && p.trailing && p.distance.Some? && p.distance.value > 0.0 && !Trails(p, price)
    ensures Rung(p, price).None?
  {}

  ghost predicate TrailingOn(p: Plan) {
    p.trailing && p.distance.Some? && p.distance.value > 0.0
  }

  lemma TickIsReference(p: Plan, level: real, seen: Seen, s: Stop, price: real)
    requires p.Ordered() && s.level == Reference(p, level, seen) && BestOf(p, s.best) == seen.stored
    requires seen.used.Some? ==> TrailingOn(p)
    ensures var now := Tick(p, s, price);
            var noted := Note(p, level, seen, Price(price, false));
            && now.level == Reference(p, level, noted)
            && BestOf(p, now.best) == noted.stored
            && (noted.used.Some? ==> TrailingOn(p))
  {
    var rung := RungStop(p, level, seen.extreme);
    LadderTightens(p, s.level, price);
    var extreme := if seen.extreme.Some? then Better(p, seen.extreme.value, price) else price;
    if seen.extreme.Some? {
      RungImproves(p, level, seen.extreme.value, price);
    }
    var next := RungStop(p, level, Some(extreme));
    assert next == RungStop(p, rung, Some(price));
    if seen.used.Some? {
      CandidateImproves(p, seen.used.value, seen.used.value);
      LadderUnderTrail(p, rung, Candidate(p, seen.used.value), price);
      if !Trails(p, price) {
        NoRungWithoutProfit(p, price);
        NothingReached(p, rung, price);
      } else {
        FollowTwice(p, next, seen.used.value, Better(p, seen.stored, price));
      }
    }
    TrailIsFollow(p, Stop(Ladder(p, s.level, price), s.best), price);
    hide Ladder, Candidate, RungStop, Better, Protect, Trails, Trail, Plan.Ordered, TrailingOn, Rung;
    assert TrailingOn(p) || !Trails(p, price) by { TrailsNeedsTrailing(p, price); }
  }

  lemma TrailsNeedsTrailing(p: Plan, price: real)
    ensures Trails(p, price) ==> TrailingOn(p)
  {}

  lemma NothingReached(p: Plan, stop: real, price: real)
    requires Rung(p, price).None?
    ensures RungStop(p, stop, Some(price)) == stop
  {}

  lemma TrailIsFollow(p: Plan, s: Stop, price: real)
    requires p.tick > 0.0
    ensures Trails(p, price) ==>
              && Trail(p, s, price).level == Follow(p, s.level, Candidate(p, Better(p, BestOf(p, s.best), price)))
              && BestOf(p, Trail(p, s, price).best) == Better(p, BestOf(p, s.best), price)
    ensures !Trails(p, price) ==> Trail(p, s, price) == s
  {
    if p.side.Short? {
      ProtectStaysSet(p);
    }
    hide Protect;
  }

  /** Every run ends in the closed form: prices held or not, and the stored best price overwritten with
      anything at any time. */
  lemma {:induction false} RunIsReference(p: Plan, s: Stop, steps: seq<Step>)
    requires p.Ordered()
    ensures Run(p, s, steps).level == Reference(p, s.level, SeenIn(p, s, steps))
    ensures BestOf(p, Run(p, s, steps).best) == SeenIn(p, s, steps).stored
    ensures SeenIn(p, s, steps).used.Some? ==> TrailingOn(p)
  {
    if steps != [] {
      var n := |steps| - 1;
      RunIsReference(p, s, steps[..n]);
      var seen := SeenIn(p, s, steps[..n]);
      if steps[n].Price? && !steps[n].hold {
        TickIsReference(p, s.level, seen, Run(p, s, steps[..n]), steps[n].price);
      }
      hide Tick, Trails, RungStop, Candidate;
    }
  }

  // ---- What the closed form means ----

  /** The stop protects at least as much as the level does. */
  ghost predicate AtLeast(p: Plan, stop: real, level: real) {
    if p.side.Long? then stop >= level else 0.0 < stop <= level
  }

  /** No worse a price for the position. */
  ghost predicate NoWorse(p: Plan, a: real, b: real) {
    if p.side.Long? then a >= b else a <= b
  }

  /** A price that was acted on. */
  ghost predicate Acted(step: Step) { step.Price? && !step.hold }

  /** The best price is no worse than any price acted on; so is the best reference used for every
      trailing price that found or set a stop, whatever was overwritten in between. */
  lemma {:induction false} SeenCoversPrices(p: Plan, s: Stop, steps: seq<Step>, i: nat)
    requires p.Ordered() && i < |steps| && Acted(steps[i])
    ensures var seen := SeenIn(p, s, steps);
            && seen.extreme.Some? && NoWorse(p, seen.extreme.value, steps[i].price)
            && (Trails(p, steps[i].price) && HasStop(p, s.level, SeenIn(p, s, steps[..i + 1])) ==>
                  && HasStop(p, s.level, seen)
                  && seen.used.Some? && NoWorse(p, seen.used.value, steps[i].price))
  {
    var n := |steps| - 1;
    if i == n {
      assert steps[..i + 1] == steps;
    } else {
      SeenCoversPrices(p, s, steps[..n], i);
      assert steps[..n][..i + 1] == steps[..i + 1];
      if HasStop(p, s.level, SeenIn(p, s, steps[..n])) {
        StopStays(p, s.level, SeenIn(p, s, steps[..n]), steps[n]);
      }
    }
    hide RungStop, Trails, Plan.Ordered;
  }

  lemma StopStays(p: Plan, level: real, seen: Seen, step: Step)
    requires p.Ordered() && HasStop(p, level, seen)
    ensures HasStop(p, level, Note(p, level, seen, step))
  {
    if p.side.Short? && seen.extreme.Some? && step.Price? {
      ProtectStaysSet(p);
      RungImproves(p, level, seen.extreme.value, step.price);
    } else if p.side.Short? {
      ProtectStaysSet(p);
    }
    hide Protect, Rung;
  }

  /** Without overwrites the reference is the running best: the stored and the used one agree, are no
      worse than the initial one, and equal it or one of the prices. */
  lemma {:induction false} SeenIsRunningBest(p: Plan, s: Stop, steps: seq<Step>)
    requires forall i | 0 <= i < |steps| :: steps[i].Price?
    ensures var seen := SeenIn(p, s, steps);
            && NoWorse(p, seen.stored, BestOf(p, s.best))
            && (seen.used.Some? ==> seen.used.value == seen.stored)
            && (seen.stored == BestOf(p, s.best)
                || exists i | 0 <= i < |steps| :: steps[i] == Price(seen.stored, false))
  {
    hide HasStop, BestOf;
    if steps != [] {
      var n := |steps| - 1;
      assert forall i | 0 <= i < n :: steps[..n][i] == steps[i];
      SeenIsRunningBest(p, s, steps[..n]);
      hide Trails;
      var before, seen := SeenIn(p, s, steps[..n]), SeenIn(p, s, steps);
      if seen.stored == before.stored && before.stored != BestOf(p, s.best) {
        var i :| 0 <= i < n && steps[..n][i] == Price(before.stored, false);
        assert steps[i] == Price(seen.stored, false);
      } else if seen.stored != before.stored {
        assert steps[n] == Price(seen.stored, false);
      }
    }
  }

  /** In any run, overwrites included: the stop is at least every trailing price that found or set one,
      less the distance, rounded away from the market; a LONG always has one. */
  lemma TrailingHolds(p: Plan, s: Stop, steps: seq<Step>, i: nat)
    requires p.Ordered() && i < |steps| && Acted(steps[i]) && Trails(p, steps[i].price)
    requires p.side.Short? ==> Run(p, s, steps[..i + 1]).level > 0.0
    ensures var seen := SeenIn(p, s, steps);
            && seen.used.Some? && NoWorse(p, seen.used.value, steps[i].price)
            && AtLeast(p, Run(p, s, steps).level, Candidate(p, seen.used.value))
            && AtLeast(p, Run(p, s, steps).level, Candidate(p, steps[i].price))
  {
    RunIsReference(p, s, steps);
    RunIsReference(p, s, steps[..i + 1]);
    SetMeansStop(p, s.level, SeenIn(p, s, steps[..i + 1]));
    SeenCoversPrices(p, s, steps, i);
    var used := SeenIn(p, s, steps).used.value;
    CandidateImproves(p, steps[i].price, used);
    assert Better(p, steps[i].price, used) == used;
    hide Protect, SeenIn, Run, RungStop, Trails, Candidate;
  }

  /** A price in profit, or any price of a runner, with trailing switched on at a distance. */
  predicate InProfit(p: Plan, price: real) {
    && p.trailing && p.distance.Some? && p.distance.value > 0.0
    && (p.runner || (if p.side.Long? then price > p.entry else price < p.entry))
  }

  lemma CandidateNear(p: Plan, best: real)
    requires p.tick > 0.0 && p.distance.Some?
    ensures p.side.Long? ==> Candidate(p, best) > best - p.distance.value - p.tick
    ensures p.side.Short? && best + p.distance.value > 0.0 ==> Candidate(p, best) < best + p.distance.value + p.tick
  {
    ProtectMovesAway(p, best - p.distance.value);
    ProtectMovesAway(p, best + p.distance.value);
    hide Protect;
  }

  /** In any run, overwrites included: a LONG stop stays above every price in profit less the distance and
      a tick; a SHORT stop that is set then stays below it plus the distance and a tick. */
  lemma DistanceHolds(p: Plan, s: Stop, steps: seq<Step>, i: nat)
    requires p.Ordered() && i < |steps| && Acted(steps[i]) && InProfit(p, steps[i].price)
    requires p.side.Short? ==> Run(p, s, steps[..i + 1]).level > 0.0
    ensures p.side.Long? ==> Run(p, s, steps).level > steps[i].price - p.distance.value - p.tick
    ensures p.side.Short? ==> Run(p, s, steps).level > 0.0
    ensures p.side.Short? && steps[i].price > 0.0 ==>
              Run(p, s, steps).level < steps[i].price + p.distance.value + p.tick
  {
    hide Run, SeenIn, Protect;
    TrailingHolds(p, s, steps, i);
    CandidateNear(p, steps[i].price);
    hide Candidate, Plan.Ordered, Trails, InProfit;
  }

  /** One trailing step, from any stop: out of profit nothing changes. In profit the best price takes the
      price in, and the stop stays where it is or moves towards the market to the distance behind the best
      price, less than a tick further away; it does not stay farther away than that. */
  lemma TrailsAtDistance(p: Plan, s: Stop, price: real)
    requires p.tick > 0.0 && p.entry > 0.0
    ensures !InProfit(p, price) ==> Trail(p, s, price) == s
    ensures InProfit(p, price) ==>
              var known := if s.best.Some? then s.best.value else p.entry;
              var best := if (if p.side.Long? then price > known else price < known) then price else known;
              var (d, after) := (p.distance.value, Trail(p, s, price));
              && (after.best == Some(best) || (after.best == s.best && best == known))
              && (p.side.Long? ==>
                    && after.level >= s.level && after.level > best - d - p.tick
                    && (after.level == s.level || after.level <= best - d))
              && (p.side.Short? ==>
                    && after.level <= s.level && (best + d > 0.0 ==> after.level < best + d + p.tick)
                    && (after.level == s.level || after.level >= best + d))
  {
    if InProfit(p, price) {
      var best := Better(p, BestOf(p, s.best), price);
      ProtectMovesAway(p, best - p.distance.value);
      ProtectMovesAway(p, best + p.distance.value);
    }
    hide Protect;
  }

  lemma SetMeansStop(p: Plan, level: real, seen: Seen)
    requires p.tick > 0.0
    ensures Reference(p, level, seen) > 0.0 ==> HasStop(p, level, seen)
  {
    hide RungStop, Candidate;
  }

  /** Once any price of the run, overwrites included, has reached a take-profit, the stop is at least the
      rung below it, to the tick — exactly so for a rung on the tick grid. */
  lemma RungHolds(p: Plan, s: Stop, steps: seq<Step>, i: nat)
    requires p.Ordered() && p.breakEven
    requires i < |steps| && Acted(steps[i]) && Rung(p, steps[i].price).Some?
    ensures AtLeast(p, Run(p, s, steps).level, Protect(Rung(p, steps[i].price).value, p))
    ensures forall n: int :: Rung(p, steps[i].price).value == Multiple(n, p.tick) ==>
                               AtLeast(p, Run(p, s, steps).level, Rung(p, steps[i].price).value)
  {
    var price := steps[i].price;
    RunIsReference(p, s, steps);
    SeenCoversPrices(p, s, steps, i);
    var extreme := SeenIn(p, s, steps).extreme.value;
    RungIsMonotone(p, extreme, price);
    if p.side.Short? {
      ProtectStaysSet(p);
    }
    var rung := Rung(p, price).value;
    forall n: int | rung == Multiple(n, p.tick) ensures Protect(rung, p) == rung {
      OnGrid(p, rung, n);
    }
    hide Protect, SeenIn, Run, Rung, Candidate;
  }

  /** The same without rungs: past a take-profit of a LONG the stop is above the level before it less a
      tick, and not below that level if it is on the tick grid; mirrored for a SHORT. */
  lemma LevelsHold(p: Plan, s: Stop, steps: seq<Step>, i: nat)
    requires p.Ordered() && p.breakEven && i < |steps| && Acted(steps[i])
    ensures var (price, level) := (steps[i].price, Run(p, s, steps).level);
            && (p.side.Long? && price >= p.tp3 ==> level > p.tp2 - p.tick)
            && (p.side.Long? && price >= p.tp2 ==> level > p.tp1 - p.tick)
            && (p.side.Long? && price >= p.tp1 ==> level > p.entry - p.tick)
            && (p.side.Short? && price <= p.tp3 ==> 0.0 < level < p.tp2 + p.tick)
            && (p.side.Short? && price <= p.tp2 ==> 0.0 < level < p.tp1 + p.tick)
            && (p.side.Short? && price <= p.tp1 ==> 0.0 < level < p.entry + p.tick)
    ensures forall n: int :: Multiple(n, p.tick) == p.entry && p.side.Long? && steps[i].price >= p.tp1 ==>
                               Run(p, s, steps).level >= p.entry
    ensures forall n: int :: Multiple(n, p.tick) == p.entry && p.side.Short? && steps[i].price <= p.tp1 ==>
                               Run(p, s, steps).level <= p.entry
  {
    var price := steps[i].price;
    if Rung(p, price).Some? {
      var rung := Rung(p, price).value;
      RungHolds(p, s, steps, i);
      ProtectMovesAway(p, rung);
      forall n: int | Multiple(n, p.tick) == p.entry ensures Protect(p.entry, p) == p.entry {
        OnGrid(p, p.entry, n);
      }
      if p.side.Long? {
        ProtectIsMonotone(p, p.entry, rung);
      } else {
        ProtectIsMonotone(p, rung, p.entry);
      }
    }
    hide Protect, Run, Multiple;
  }

  lemma RungIsMonotone(p: Plan, better: real, price: real)
    requires p.Ordered() && NoWorse(p, better, price) && Rung(p, price).Some?
    ensures Rung(p, better).Some?
    ensures p.side.Long? ==> Protect(Rung(p, better).value, p) >= Protect(Rung(p, price).value, p)
    ensures p.side.Short? ==> Protect(Rung(p, better).value, p) <= Protect(Rung(p, price).value, p)
  {
    var a, b := Rung(p, better).value, Rung(p, price).value;
    if p.side.Long? { ProtectIsMonotone(p, b, a); } else { ProtectIsMonotone(p, a, b); }
  }

  lemma OnGrid(p: Plan, value: real, n: int)
    requires p.tick > 0.0 && value == Multiple(n, p.tick) && value > 0.0
    ensures Protect(value, p) == value
  {
    FloorToIs(value, p.tick, n);
    var m := -(-(value / p.tick)).Floor;
    CeilBounds(value, p.tick);
    MoreMultiples(n, m, p.tick);
    MoreMultiples(m, n, p.tick);
  }

  // ---- No stop without a reason ----

  /** On the tick grid, and away from the market by less than a tick. */
  ghost predicate JustBehind(p: Plan, level: real, value: real) {
    && (p.side.Long? ==> value - p.tick < level <= value)
    && (p.side.Short? ==> level >= value && (value > 0.0 ==> level < value + p.tick))
    && exists n: int :: level == Multiple(n, p.tick)
  }

  /** The price has reached a take-profit, and the stop is at the level before it. */
  ghost predicate ByLadder(p: Plan, price: real, level: real) {
    && p.breakEven
    && (|| (NoWorse(p, price, p.tp1) && JustBehind(p, level, p.entry))
        || (NoWorse(p, price, p.tp2) && JustBehind(p, level, p.tp1))
        || (NoWorse(p, price, p.tp3) && JustBehind(p, level, p.tp2)))
  }

  /** The stop is at the distance behind this best price. */
  ghost predicate ByTrail(p: Plan, best: real, level: real) {
    && p.distance.Some?
    && JustBehind(p, level, if p.side.Long? then best - p.distance.value else best + p.distance.value)
  }

  /** A price acted on explains the stop: by the take-profit it reached, or by the distance to it or to the
      best price known before. */
  ghost predicate Explains(p: Plan, known: real, step: Step, level: real) {
    && Acted(step)
    && (|| ByLadder(p, step.price, level)
        || (InProfit(p, step.price) && (ByTrail(p, step.price, level) || ByTrail(p, known, level))))
  }

  lemma ProtectIsJustBehind(p: Plan, value: real)
    requires p.tick > 0.0
    ensures JustBehind(p, Protect(value, p), value)
  {
    ProtectMovesAway(p, value);
    FloorIsLargest(value, p.tick);
    CeilIsSmallest(value, p.tick);
    hide Multiple, FloorTo, CeilTo;
  }

  lemma LadderHasReason(p: Plan, stop: real, price: real)
    requires p.Ordered()
    ensures Ladder(p, stop, price) == stop || ByLadder(p, price, Ladder(p, stop, price))
  {
    ProtectIsJustBehind(p, p.entry);
    ProtectIsJustBehind(p, p.tp1);
    ProtectIsJustBehind(p, p.tp2);
    hide Protect, JustBehind;
  }

  lemma TrailHasReason(p: Plan, s: Stop, price: real)
    requires p.Ordered()
    ensures var (best, after) := (Better(p, BestOf(p, s.best), price), Trail(p, s, price));
            && (after.level == s.level || (InProfit(p, price) && ByTrail(p, best, after.level)))
            && (BestOf(p, after.best) == BestOf(p, s.best) || (InProfit(p, price) && BestOf(p, after.best) == price))
  {
    if p.distance.Some? {
      var best := Better(p, BestOf(p, s.best), price);
      ProtectIsJustBehind(p, best - p.distance.value);
      ProtectIsJustBehind(p, best + p.distance.value);
    }
    hide Protect, JustBehind;
  }

  /** No stop without a reason: after any run the stop is the initial one, or lies just behind a take-profit
      level before one that a price of the run reached, or at the trailing distance behind a price of the
      run in profit or the best price known at its start. */
  lemma {:induction false} StopHasReason(p: Plan, s: Stop, steps: seq<Step>)
    requires p.Ordered() && forall i | 0 <= i < |steps| :: steps[i].Price?
    ensures var n := Run(p, s, steps);
            && (n.level == s.level
                || exists i :: 0 <= i < |steps| && Explains(p, BestOf(p, s.best), steps[i], n.level))
            && (BestOf(p, n.best) == BestOf(p, s.best)
                || exists i :: 0 <= i < |steps| && Acted(steps[i]) && InProfit(p, steps[i].price)
                               && steps[i].price == BestOf(p, n.best))
  {
    hide BestOf, Ladder, Trail, ByLadder, ByTrail, InProfit, Plan.Ordered;
    if steps != [] {
      var m := |steps| - 1;
      assert forall i | 0 <= i < m :: steps[..m][i] == steps[i];
      StopHasReason(p, s, steps[..m]);
      var before := Run(p, s, steps[..m]);
      if !steps[m].hold {
        LadderHasReason(p, before.level, steps[m].price);
        TrailHasReason(p, before.(level := Ladder(p, before.level, steps[m].price)), steps[m].price);
      }
    }
  }

  /** The run without its overwrites. */
  function Prices(steps: seq<Step>): seq<Step> {
    if steps == [] then []
    else Prices(steps[..|steps| - 1]) + if steps[|steps| - 1].Price? then [steps[|steps| - 1]] else []
  }

  /** Every overwrite writes a best price the trade once had: between the initial and the running one. */
  ghost predicate OnlyOlder(p: Plan, s: Stop, steps: seq<Step>) {
    forall i | 0 <= i < |steps| && steps[i].Overwritten? ::
      && NoWorse(p, BestOf(p, steps[i].best), p.entry)
      && NoWorse(p, SeenIn(p, s, Prices(steps[..i])).stored, BestOf(p, steps[i].best))
  }

  /** The close worker writes back the best price it read before the exchange call. That can lower the
      stored best price, yet in every run of a trade that has a stop and has recorded no best price so
      far, the stop ends up as if it had not. */
  lemma {:induction false} OverwritesLeaveNoTrace(p: Plan, s: Stop, steps: seq<Step>)
    requires p.Ordered() && s.best.None? && (p.side.Long? || s.level > 0.0)
    requires OnlyOlder(p, s, steps)
    ensures Run(p, s, steps).level == Run(p, s, Prices(steps)).level
  {
    RunIsReference(p, s, steps);
    RunIsReference(p, s, Prices(steps));
    OverwritesSeenAlike(p, s, steps);
    hide Run, SeenIn, RungStop, Candidate;
  }

  /** Both runs have seen the same best price and used the same best reference. */
  ghost predicate Alike(p: Plan, seen: Seen, pure: Seen) {
    && seen.extreme == pure.extreme && seen.used == pure.used
    && NoWorse(p, pure.stored, seen.stored) && NoWorse(p, seen.stored, p.entry)
    && (if pure.used.Some? then pure.used.value == pure.stored else pure.stored == p.entry)
  }

  lemma PriceKeepsAlike(p: Plan, level: real, seen: Seen, pure: Seen, step: Step)
    requires p.Ordered() && Alike(p, seen, pure) && step.Price?
    requires p.side.Long? || level > 0.0
    ensures Alike(p, Note(p, level, seen, step), Note(p, level, pure, step))
  {
    InitialStop(p, level, seen);
    hide RungStop;
  }

  lemma InitialStop(p: Plan, level: real, seen: Seen)
    requires p.Ordered() && (p.side.Long? || level > 0.0)
    ensures HasStop(p, level, seen)
  {
    if p.side.Short? {
      ProtectStaysSet(p);
    }
    hide Protect, Rung;
  }

  lemma {:induction false} OverwritesSeenAlike(p: Plan, s: Stop, steps: seq<Step>)
    requires p.Ordered() && s.best.None? && (p.side.Long? || s.level > 0.0)
    requires OnlyOlder(p, s, steps)
    ensures Alike(p, SeenIn(p, s, steps), SeenIn(p, s, Prices(steps)))
  {
    if steps != [] {
      var n := |steps| - 1;
      assert forall i | 0 <= i < n :: steps[..n][i] == steps[i];
      forall i | 0 <= i < n ensures steps[..n][..i] == steps[..i] {}
      OverwritesSeenAlike(p, s, steps[..n]);
      var before := Prices(steps[..n]);
      if steps[n].Price? {
        assert (before + [steps[n]])[..|before|] == before;
        PriceKeepsAlike(p, s.level, SeenIn(p, s, steps[..n]), SeenIn(p, s, before), steps[n]);
        hide Note, Alike;
      } else {
        assert before + [] == before;
        hide HasStop;
      }
    }
  }
}
