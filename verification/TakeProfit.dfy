/** Partial exits: how an entry is divided over three take-profit levels, on the exchange's lot grid. */
module TakeProfit {
  import opened Basics
  import opened Grid

  datatype Level = TP1 | TP2 | TP3

  // ---- Quantities ----

  function RoundStep(value: real, step: real): real {
    if step <= 0.0 then value else FloorTo(value, step)
  }

  datatype Partition = Partition(tp1: real, tp2: real, tp3: real, original: real) {
    function Of(level: Level): real {
      match level case TP1 => tp1 case TP2 => tp2 case TP3 => tp3
    }
  }

  datatype Result<T> = Ok(value: T) | Err

  function PartialQuantities(total: real, step: real): Result<Partition> {
    var tp1 := RoundStep(total * 0.30, step);
    var tp2 := RoundStep(total * 0.30, step);
    var tp3 := RoundStep(total - tp1 - tp2, step);
    if tp3 <= 0.0 then Err else Ok(Partition(tp1, tp2, tp3, total))
  }

  /** The three parts add up to the entry rounded to the lot grid, hence exactly to an entry that is on
      it, none is negative, and the division fails only for an entry below one lot. */
  lemma PartsAddUp(total: real, step: real)
    requires step > 0.0 && total >= 0.0
    ensures PartialQuantities(total, step).Err? <==> total < step
    ensures PartialQuantities(total, step).Ok? ==>
              var p := PartialQuantities(total, step).value;
              && p.tp1 + p.tp2 + p.tp3 == RoundStep(total, step)
              && 0.0 <= p.tp1 == p.tp2 <= p.tp3
              && (RoundStep(total, step) == total ==> p.tp1 + p.tp2 + p.tp3 == p.original)
  {
    var third, lots := (total * 0.30 / step).Floor, (total / step).Floor;
    FloorBounds(total * 0.30, step);
    FloorBounds(total, step);
    AddMultiples(third, third, step);
    AddMultiples(2 * third, third, step);
    AddMultiples(lots - 2 * third, 2 * third, step);
    FloorToIs(total - Multiple(third, step) - Multiple(third, step), step, lots - 2 * third);
    Zero(step);
    MoreMultiples(third, 0, step);
    MoreMultiples(0, third, step);
    MoreMultiples(lots, 3 * third, step);
    MoreMultiples(lots, 0, step);
    MoreMultiples(0, lots, step);
    MoreMultiples(0, lots - 2 * third, step);
    MoreMultiples(third, lots - 2 * third, step);
    hide Multiple;
  }

  /** The first two parts are the largest numbers of lots within 30 % of the entry, and the last takes the
      rest of its lots: at least 40 % but for a lot, and less than 40 % and two lots more. */
  lemma PartsAreShares(total: real, step: real)
    requires step > 0.0 && PartialQuantities(total, step).Ok?
    ensures var p := PartialQuantities(total, step).value;
            && p.original == total
            && 0.30 * total - step < p.tp1 == p.tp2 <= 0.30 * total
            && 0.40 * total - step < p.tp3 < 0.40 * total + 2.0 * step
            && (exists n: int :: p.tp1 == Multiple(n, step)) && (exists n: int :: p.tp3 == Multiple(n, step))
  {
    var part := RoundStep(total * 0.30, step);
    FloorBounds(total * 0.30, step);
    FloorIsLargest(total * 0.30, step);
    FloorBounds(total - part - part, step);
    FloorIsLargest(total - part - part, step);
    hide Multiple, FloorTo;
  }

  /** Without a lot grid the shares are exact, and only an entry of nothing cannot be divided. */
  lemma PartsWithoutGrid(total: real, step: real)
    requires step <= 0.0
    ensures PartialQuantities(total, step)
            == if total > 0.0 then Ok(Partition(0.30 * total, 0.30 * total, 0.40 * total, total)) else Err
  {}

  /** The first two parts are positive exactly when a third of the entry, as it were, makes one lot. */
  lemma PartIsPositiveIff(total: real, step: real)
    requires step > 0.0 && total >= 0.0
    ensures RoundStep(total * 0.30, step) > 0.0 <==> total * 0.30 >= step
  {
    var n := (total * 0.30 / step).Floor;
    FloorBounds(total * 0.30, step);
    Zero(step);
    One(step);
    MoreMultiples(n, 0, step);
    MoreMultiples(0, n, step);
    MoreMultiples(n, 1, step);
    MoreMultiples(1, n, step);
    hide Multiple;
  }

  const LEVELS := [TP1, TP2, TP3]

  function Unlocked(p: Partition, flags: set<Level>, n: nat): real
    requires n <= 3
  {
    if n == 0 then 0.0
    else Unlocked(p, flags, n - 1) + if LEVELS[n - 1] in flags then 0.0 else p.Of(LEVELS[n - 1])
  }

  /** The remainder the metadata shows is the sum of the levels not locked; its clamp at 0 never bites. */
  method MetadataRemaining(p: Partition, flags: set<Level>) returns (remaining: real)
    requires p.tp1 + p.tp2 + p.tp3 == p.original && p.tp1 >= 0.0 && p.tp2 >= 0.0 && p.tp3 >= 0.0
    ensures remaining == Unlocked(p, flags, 3) >= 0.0
    ensures remaining == (if TP1 in flags then 0.0 else p.tp1) + (if TP2 in flags then 0.0 else p.tp2)
                         + (if TP3 in flags then 0.0 else p.tp3)
  {
    remaining := p.original;
    for i := 0 to 3
      invariant remaining == Unlocked(p, flags, i) + (if i <= 0 then p.tp1 else 0.0)
                             + (if i <= 1 then p.tp2 else 0.0) + (if i <= 2 then p.tp3 else 0.0)
      invariant Unlocked(p, flags, i) >= 0.0
    {
      if LEVELS[i] in flags {
        remaining := remaining - p.Of(LEVELS[i]);
      }
    }
    assert Unlocked(p, flags, 1) == (if TP1 in flags then 0.0 else p.tp1);
    assert Unlocked(p, flags, 2) == Unlocked(p, flags, 1) + (if TP2 in flags then 0.0 else p.tp2);
    if remaining < 0.0 {
      remaining := 0.0;
    }
  }
}
