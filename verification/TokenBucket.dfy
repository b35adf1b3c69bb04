/** The REST token bucket: continuous refill, a hard stop that drains it, and a release that
    fills it again. Each locked section is one step; the steps of all threads interleave. */
module TokenBucket {
  import opened Basics

  /** Tokens earned over a stretch of time. */
  function Earned(elapsed: real, rate: real): real { elapsed * rate }

  lemma EarnedSum(a: real, b: real, rate: real)
    ensures Earned(a + b, rate) == Earned(a, rate) + Earned(b, rate)
    ensures Earned(a - b, rate) == Earned(a, rate) - Earned(b, rate)
  {
    Distribute(a, b, rate);
  }

  lemma EarnedSign(a: real, rate: real)
    requires rate > 0.0
    ensures a >= 0.0 ==> Earned(a, rate) >= 0.0
    ensures a > 0.0 ==> Earned(a, rate) > 0.0
  {
    Sign(a, rate);
  }

  /** A deficit is earned in deficit/rate and not earlier. */
  lemma EarnedAfter(deficit: real, e: real, rate: real)
    requires rate > 0.0
    ensures deficit / rate <= e <==> Earned(e, rate) >= deficit
    ensures deficit > 0.0 <==> deficit / rate > 0.0
    ensures (deficit - Earned(e, rate)) / rate == deficit / rate - e
  {
    var d := deficit / rate;
    Divides(deficit, rate);
    Scale(d, e, rate);
    Scale(0.0, d, rate);
    Distribute(d, e, rate);
    Quotient(deficit - e * rate, rate, d - e);
  }

  datatype Bucket = Bucket(
    capacity: real, rate: real, tokens: real, lastRefill: real, hardStopUntil: real)
  {
    ghost predicate Valid() {
      capacity >= 1.0 && rate > 0.0 && 0.0 <= tokens <= capacity
    }

    function Refill(now: real): Bucket {
      if now - lastRefill > 0.0 then
        this.(tokens := MinReal(capacity, tokens + Earned(now - lastRefill, rate)), lastRefill := now)
      else this
    }

    /** One locked attempt to take `weight` tokens: nothing changes while hard-stopped. */
    function Take(weight: int, now: real): (Bucket, bool) {
      if now < hardStopUntil then (this, false)
      else
        var b := Refill(now);
        if b.tokens < AtLeastOne(weight) as real then (b, false)
        else (b.(tokens := b.tokens - AtLeastOne(weight) as real), true)
    }

    function HardStop(seconds: real, now: real): Bucket {
      this.(hardStopUntil := MaxReal(hardStopUntil, now + MaxReal(seconds, 0.0)), tokens := 0.0)
    }

    function Clear(now: real): Bucket {
      this.(hardStopUntil := 0.0, tokens := capacity, lastRefill := now)
    }

    /** Tokens a refill at `now` would leave, whether or not the bucket is stopped. */
    ghost function Level(now: real): real {
      Refill(now).tokens
    }

    /** The first instant at which an attempt on `weight` can succeed if nobody else interferes. */
    ghost function ReadyAt(weight: int): real
      requires rate > 0.0
    {
      MaxReal(hardStopUntil, lastRefill + (AtLeastOne(weight) as real - tokens) / rate)
    }
  }

  datatype Step =
    | Take(weight: int, at: real)
    | HardStop(seconds: real, at: real)
    | Clear(at: real)

  function Apply(b: Bucket, s: Step): (r: (Bucket, nat))
    ensures b.Valid() ==> r.0.Valid() && r.0.capacity == b.capacity && r.0.rate == b.rate
  {
    match s
    case Take(weight, at) =>
      RefillFacts(b, at);
      var (b', ok) := b.Take(weight, at);
      (b', if ok then AtLeastOne(weight) else 0)
    case HardStop(seconds, at) => (b.HardStop(seconds, at), 0)
    case Clear(at) => (b.Clear(at), 0)
  }

  /** The bucket after a run, and the weight granted along it. */
  function Run(b: Bucket, steps: seq<Step>): (r: (Bucket, nat))
    ensures b.Valid() ==> r.0.Valid() && r.0.capacity == b.capacity && r.0.rate == b.rate
    decreases |steps|
  {
    if steps == [] then (b, 0)
    else
      var (b1, granted) := Apply(b, steps[0]);
      var (b2, rest) := Run(b1, steps[1..]);
      (b2, granted + rest)
  }

  ghost predicate Between(steps: seq<Step>, from: real, to: real) {
    && from <= to
    && (forall i | 0 <= i < |steps| :: from <= steps[i].at <= to)
    && (forall i, j | 0 <= i <= j < |steps| :: steps[i].at <= steps[j].at)
  }

  function Clears(steps: seq<Step>): nat {
    if steps == [] then 0 else (if steps[0].Clear? then 1 else 0) + Clears(steps[1..])
  }

  lemma RefillFacts(b: Bucket, now: real)
    ensures b.Valid() ==> b.Refill(now).Valid()
  {
    hide Earned;
    if b.Valid() && now > b.lastRefill {
      EarnedSign(now - b.lastRefill, b.rate);
    }
  }

  lemma LevelRange(b: Bucket, t: real)
    requires b.Valid()
    ensures 0.0 <= b.Level(t) <= b.capacity
  {
    hide Earned;
    RefillFacts(b, t);
  }

  /** The level rises no faster than the refill rate. */
  lemma LevelGrowth(b: Bucket, t0: real, t1: real)
    requires b.Valid() && t0 <= t1
    ensures b.Level(t1) <= b.Level(t0) + Earned(t1 - t0, b.rate)
  {
    hide Earned;
    RefillFacts(b, t0);
    RefillFacts(b, t1);
    var l := b.lastRefill;
    EarnedSum(t0 - l, t1 - t0, b.rate);
    EarnedSum(t1 - l, l - t0, b.rate);
    EarnedSign(t1 - t0, b.rate);
    EarnedSign(l - t0, b.rate);
    EarnedSign(t1 - l, b.rate);
    EarnedSign(t0 - l, b.rate);
  }

  /** One step spends from the level; only a release adds to it. */
  lemma StepSpends(b: Bucket, s: Step)
    requires b.Valid()
    ensures var (b', granted) := Apply(b, s);
            granted as real + b'.Level(s.at)
            <= b.Level(s.at) + (if s.Clear? then b.capacity else 0.0)
  {
    hide Earned;
    RefillFacts(b, s.at);
    match s
    case Take(weight, at) =>
      TakeSpends(b, weight, at);
    case HardStop(seconds, at) =>
      EarnedSign(at - b.lastRefill, b.rate);
    case Clear(at) =>
  }

  lemma TakeSpends(b: Bucket, weight: int, at: real)
    requires b.Valid()
    ensures var (b', ok) := b.Take(weight, at);
            b'.Level(at) == b.Level(at) - if ok then AtLeastOne(weight) as real else 0.0
  {
    hide Earned;
    RefillFacts(b, at);
  }

  /** The level pays for every grant: it starts at most full, rises with time and with releases. */
  lemma {:induction false} LevelPays(b: Bucket, steps: seq<Step>, from: real, to: real)
    requires b.Valid() && Between(steps, from, to)
    ensures Run(b, steps).1 as real + Run(b, steps).0.Level(to)
            <= b.Level(from) + Times(Clears(steps), b.capacity) + Earned(to - from, b.rate)
    decreases |steps|
  {
    hide Earned;
    hide Bucket.Level, Bucket.Take, Bucket.HardStop, Bucket.Clear, Apply;
    if steps == [] {
      LevelGrowth(b, from, to);
    } else {
      var s := steps[0];
      var (b1, granted) := Apply(b, s);
      var (b2, rest) := Run(b1, steps[1..]);
      assert Between(steps[1..], s.at, to) by {
        forall i | 0 <= i < |steps| - 1 ensures s.at <= steps[1..][i].at <= to {
          assert steps[0].at <= steps[i + 1].at;
        }
      }
      LevelPays(b1, steps[1..], s.at, to);
      StepSpends(b, s);
      LevelGrowth(b, from, s.at);
      EarnedSum(to - s.at, s.at - from, b.rate);
      assert Run(b, steps) == (b2, granted + rest);
      assert Times(Clears(steps), b.capacity)
          == (if s.Clear? then b.capacity else 0.0) + Times(Clears(steps[1..]), b.capacity);
      assert (granted + rest) as real + b2.Level(to)
          <= granted as real + b1.Level(s.at) + Times(Clears(steps[1..]), b.capacity)
             + Earned(to - s.at, b.rate);
    }
  }

  function Times(k: nat, x: real): real {
    if k == 0 then 0.0 else x + Times(k - 1, x)
  }

  lemma {:induction false} TimesIsProduct(k: nat, x: real)
    ensures Times(k, x) == k as real * x
  {
    if k != 0 {
      TimesIsProduct(k - 1, x);
      assert k as real * x == (k - 1) as real * x + x;
    }
  }

  lemma GrantsWithin(b: Bucket, steps: seq<Step>, from: real, to: real)
    requires b.Valid() && Between(steps, from, to)
    ensures Run(b, steps).1 as real <= Times(Clears(steps) + 1, b.capacity) + Earned(to - from, b.rate)
  {
    hide Earned, Bucket.Level, Run;
    LevelPays(b, steps, from, to);
    LevelRange(b, from);
    LevelRange(Run(b, steps).0, to);
  }

  /** Over any interval, from any state: what is granted is at most one bucket, one more bucket for
      every release in between, and the refill of the elapsed time. */
  lemma GrantsBounded(b: Bucket, steps: seq<Step>, from: real, to: real)
    requires b.Valid() && Between(steps, from, to)
    ensures Run(b, steps).1 as real <= (Clears(steps) + 1) as real * b.capacity + Earned(to - from, b.rate)
  {
    hide Earned, Times, Run, Clears;
    GrantsWithin(b, steps, from, to);
    TimesIsProduct(Clears(steps) + 1, b.capacity);
  }

  /** Until it is released, a hard stop lets nothing through before its deadline, whatever else
      happens in between. */
  lemma {:induction false} NothingBeforeDeadline(b: Bucket, steps: seq<Step>, deadline: real)
    requires b.hardStopUntil >= deadline && Clears(steps) == 0
    requires forall i | 0 <= i < |steps| :: steps[i].at < deadline
    ensures Run(b, steps).1 == 0 && Run(b, steps).0.hardStopUntil >= deadline
    decreases |steps|
  {
    hide Earned;
    if steps != [] {
      assert steps[0].at < deadline;
      NothingBeforeDeadline(Apply(b, steps[0]).0, steps[1..], deadline);
    }
  }

  /** A hard stop of so many seconds grants nothing for as long, from every state and whatever else
      happens in between, short of a release. */
  lemma {:induction false} HardStopHolds(b: Bucket, seconds: real, now: real, steps: seq<Step>)
    requires Clears(steps) == 0
    requires forall i | 0 <= i < |steps| :: now <= steps[i].at < now + seconds
    ensures Run(b, [HardStop(seconds, now)] + steps).1 == 0
  {
    var all := [HardStop(seconds, now)] + steps;
    assert all[1..] == steps;
    if steps != [] {
      assert steps[0].at < now + seconds;
    }
    NothingBeforeDeadline(b.HardStop(seconds, now), steps, now + seconds);
  }

  /** It drains the bucket as well: what is granted after it, until a release, is no more than what the time
      since the last refill before it earns. */
  lemma {:induction false} HardStopDrains(b: Bucket, seconds: real, now: real, steps: seq<Step>, to: real)
    requires b.Valid() && b.lastRefill <= now && Clears(steps) == 0 && Between(steps, now, to)
    ensures Run(b, [HardStop(seconds, now)] + steps).1 as real <= (to - b.lastRefill) * b.rate
  {
    var stopped := b.HardStop(seconds, now);
    DrainedLevel(b, seconds, now);
    EarnedSum(to - now, now - b.lastRefill, b.rate);
    assert (to - now) + (now - b.lastRefill) == to - b.lastRefill;
    assert Earned(to - b.lastRefill, b.rate) == (to - b.lastRefill) * b.rate;
    hide Earned, Bucket.Level;
    LevelPays(stopped, steps, now, to);
    LevelRange(Run(stopped, steps).0, to);
    var all := [HardStop(seconds, now)] + steps;
    assert all[1..] == steps;
  }

  lemma DrainedLevel(b: Bucket, seconds: real, now: real)
    requires b.Valid() && b.lastRefill <= now
    ensures b.HardStop(seconds, now).Valid()
    ensures b.HardStop(seconds, now).Level(now) <= Earned(now - b.lastRefill, b.rate)
  {
    EarnedSign(now - b.lastRefill, b.rate);
    hide Earned;
  }

  /** A release opens the bucket at once and fills it: whatever was in force before, the next attempt on
      any weight up to the capacity succeeds. */
  lemma ReleaseOpens(b: Bucket, released: real, weight: int, now: real)
    requires b.Valid() && 0.0 <= released <= now && AtLeastOne(weight) as real <= b.capacity
    ensures Run(b, [Clear(released), Take(weight, now)]).1 == AtLeastOne(weight)
  {
    var steps := [Clear(released), Take(weight, now)];
    assert steps[1..] == [Take(weight, now)] && steps[1..][1..] == [];
    var full := b.Clear(released);
    TakesExactlyWhenReady(full, weight, now);
    EarnedAfter(AtLeastOne(weight) as real - full.tokens, 0.0, b.rate);
    assert full.ReadyAt(weight) <= now;
    hide Bucket.Take, Bucket.ReadyAt;
    assert Run(full, [Take(weight, now)]).1 == AtLeastOne(weight) + Run(full.Take(weight, now).0, []).1;
  }

  /** Attempts that leave the bucket the time to earn each of them. */
  ghost predicate Paid(steps: seq<Step>, since: real, capacity: real, rate: real)
    requires rate > 0.0
  {
    steps == []
    || (steps[0].Take? && AtLeastOne(steps[0].weight) as real <= capacity
        && steps[0].at >= since + AtLeastOne(steps[0].weight) as real / rate
        && Paid(steps[1..], steps[0].at, capacity, rate))
  }

  /** The weight that all these attempts ask for. */
  function Asked(steps: seq<Step>): nat {
    if steps == [] then 0 else (if steps[0].Take? then AtLeastOne(steps[0].weight) else 0) + Asked(steps[1..])
  }

  /** The rate is delivered: of a bucket that is not stopped, even an empty one, attempts that are spaced by
      their own weight over the rate are all granted. */
  lemma {:induction false} PaidTakesAreGranted(b: Bucket, steps: seq<Step>)
    requires b.Valid() && Paid(steps, b.lastRefill, b.capacity, b.rate)
    requires b.hardStopUntil <= b.lastRefill
    ensures Run(b, steps).1 == Asked(steps)
    decreases |steps|
  {
    if steps != [] {
      var (w, at) := (AtLeastOne(steps[0].weight) as real, steps[0].at);
      EarnedAfter(w, at - b.lastRefill, b.rate);
      EarnedAfter(w, 0.0, b.rate);
      assert Earned(at - b.lastRefill, b.rate) >= w;
      hide Earned;
      RefillFacts(b, at);
      assert b.Take(steps[0].weight, at).1;
      PaidTakesAreGranted(Apply(b, steps[0]).0, steps[1..]);
    }
  }

  /** The deadline itself is met: the first attempt at or after both the deadline and the refill
      time succeeds, and no earlier one does. */
  lemma TakesExactlyWhenReady(b: Bucket, weight: int, now: real)
    requires b.Valid() && b.lastRefill <= now && AtLeastOne(weight) as real <= b.capacity
    ensures b.Take(weight, now).1 <==> b.ReadyAt(weight) <= now
    ensures !b.Take(weight, now).1 ==> b.Take(weight, now).0.ReadyAt(weight) == b.ReadyAt(weight)
    ensures !b.Take(weight, now).1 ==> b.Take(weight, now).0.Valid()
  {
    hide Earned;
    var w := AtLeastOne(weight) as real;
    RefillFacts(b, now);
    if now >= b.hardStopUntil {
      var e := now - b.lastRefill;
      EarnedAfter(w - b.tokens, e, b.rate);
    }
  }

  lemma RefillTwice(b: Bucket, t0: real, t1: real)
    requires b.Valid() && b.lastRefill <= t0 <= t1
    ensures b.Refill(t0).Refill(t1) == b.Refill(t1)
  {
    hide Earned;
    var l := b.lastRefill;
    EarnedSum(t0 - l, t1 - t0, b.rate);
    EarnedSign(t0 - l, b.rate);
    EarnedSign(t1 - t0, b.rate);
    assert (t0 - l) + (t1 - t0) == t1 - l;
  }

  /** A weight above the capacity is never granted, so a blocking caller would wait forever. */
  lemma NeverAboveCapacity(b: Bucket, weight: int, now: real)
    requires b.Valid() && AtLeastOne(weight) as real > b.capacity
    ensures !b.Take(weight, now).1
  {
    hide Earned;
    RefillFacts(b, now);
  }

  lemma WaitsWithinReady(b: Bucket, weight: int)
    requires b.Valid()
    ensures b.hardStopUntil <= b.ReadyAt(weight)
    ensures var w := AtLeastOne(weight) as real;
            && b.lastRefill + (w - b.tokens) / b.rate <= b.ReadyAt(weight)
            && (b.tokens < w ==> (w - b.tokens) / b.rate > 0.0)
  {
    hide Earned;
    var missing := AtLeastOne(weight) as real - b.tokens;
    EarnedAfter(missing, 0.0, b.rate);
  }

  class RestTokenBucket {
    const capacity: real
    const rate: real
    var tokens: real
    var lastRefill: real
    var hardStopUntil: real

    ghost function State(): Bucket
      reads this
    {
      Bucket(capacity, rate, tokens, lastRefill, hardStopUntil)
    }

    constructor (capacity: real, refillPerSecond: real, now: real)
      ensures State().Valid()
      ensures State() == Bucket(MaxReal(capacity, 1.0), MaxReal(refillPerSecond, 0.01),
                                MaxReal(capacity, 1.0), now, 0.0)
    {
      this.capacity, this.rate := MaxReal(capacity, 1.0), MaxReal(refillPerSecond, 0.01);
      tokens, lastRefill, hardStopUntil := MaxReal(capacity, 1.0), now, 0.0;
    }

    method TriggerHardStop(seconds: real, now: real)
      requires State().Valid()
      modifies this
      ensures State() == old(State()).HardStop(seconds, now) && State().Valid()
      ensures tokens == 0.0 && lastRefill == old(lastRefill)
      ensures hardStopUntil >= old(hardStopUntil) && hardStopUntil >= now + seconds
      ensures hardStopUntil == old(hardStopUntil) || hardStopUntil == now + MaxReal(seconds, 0.0)
    {
      hardStopUntil := MaxReal(hardStopUntil, now + MaxReal(seconds, 0.0));
      tokens := 0.0;
    }

    method ClearHardStop(now: real)
      requires State().Valid()
      modifies this
      ensures State() == old(State()).Clear(now) && State().Valid()
      ensures tokens == capacity && lastRefill == now && hardStopUntil == 0.0
    {
      hardStopUntil := 0.0;
      tokens := capacity;
      lastRefill := now;
    }

    method TryAcquire(weight: int, now: real) returns (ok: bool)
      requires State().Valid()
      modifies this
      ensures State() == old(State()).Take(weight, now).0 && State().Valid()
      ensures ok == old(State()).Take(weight, now).1
    {
      hide Earned;
      var w := AtLeastOne(weight) as real;
      RefillFacts(State(), now);
      if now < hardStopUntil {
        return false;
      }
      var elapsed := now - lastRefill;
      if elapsed > 0.0 {
        tokens := MinReal(capacity, tokens + Earned(elapsed, rate));
        lastRefill := now;
      }
      if tokens < w {
        return false;
      }
      tokens := tokens - w;
      return true;
    }

    /** The locked section of a blocking acquisition: take the tokens, or say how long to wait. */
    method TakeOrWait(weight: int, now: real) returns (ok: bool, wait: real)
      requires State().Valid() && lastRefill <= now && AtLeastOne(weight) as real <= capacity
      modifies this
      ensures State() == old(State()).Take(weight, now).0 && State().Valid()
      ensures ok == old(State()).Take(weight, now).1 == (old(State()).ReadyAt(weight) <= now)
      ensures !ok ==> State().ReadyAt(weight) == old(State()).ReadyAt(weight)
      ensures !ok ==> 0.0 < wait <= State().ReadyAt(weight) - now
    {
      hide Earned;
      hide Bucket.ReadyAt;
      var w := AtLeastOne(weight) as real;
      RefillFacts(State(), now);
      TakesExactlyWhenReady(State(), weight, now);
      WaitsWithinReady(State(), weight);
      wait := hardStopUntil - now;
      if wait > 0.0 {
        ok := false;
      } else {
        var elapsed := now - lastRefill;
        if elapsed > 0.0 {
          tokens := MinReal(capacity, tokens + Earned(elapsed, rate));
          lastRefill := now;
        }
        ok := tokens >= w;
        if ok {
          tokens := tokens - w;
        } else {
          wait := (w - tokens) / rate;
          WaitsWithinReady(State(), weight);
        }
      }
    }

    /** The blocking acquisition of the execution path: it retries after sleeping, in slices of at
        most 30 seconds, until the tokens are there. `lateness(k)` is how much longer the k-th sleep
        took than asked, at most `late`. Without interference it terminates, never earlier than the
        bucket can pay, at most one minimal slice (and one oversleep) later, and its retries leave
        no other trace. */
    method Acquire(weight: int, start: real, lateness: nat -> real, ghost late: real)
      returns (at: real)
      requires State().Valid() && lastRefill <= start && AtLeastOne(weight) as real <= capacity
      requires forall k :: 0.0 <= lateness(k) <= late
      modifies this
      ensures at >= start && at >= old(State()).ReadyAt(weight)
      ensures at <= MaxReal(start, old(State()).ReadyAt(weight) + 0.05 + late)
      ensures State() == old(State()).Take(weight, at).0 && State().Valid()
    {
      hide Earned;
      ghost var b0 := State();
      ghost var ready := b0.ReadyAt(weight);
      var sleeps: nat := 0;
      at := start;
      while true
        invariant State().Valid() && b0.lastRefill <= lastRefill <= at && start <= at
        invariant State() == b0.Refill(lastRefill) && State().ReadyAt(weight) == ready
        invariant at <= MaxReal(start, ready + 0.05 + late)
        decreases if at < ready then ((ready - at) / 0.05).Floor + 1 else 0
      {
        RefillTwice(b0, lastRefill, at);
        var ok, wait := TakeOrWait(weight, at);
        if ok {
          return;
        }
        FewerSlices(ready, at, at + MinReal(MaxReal(wait, 0.05), 30.0) + lateness(sleeps));
        at := at + MinReal(MaxReal(wait, 0.05), 30.0) + lateness(sleeps);
        sleeps := sleeps + 1;
      }
    }
  }

  lemma FewerSlices(ready: real, before: real, after: real)
    requires before < ready && after >= before + 0.05
    ensures after < ready ==> ((ready - after) / 0.05).Floor < ((ready - before) / 0.05).Floor
    ensures ((ready - before) / 0.05).Floor >= 0
  {
    assert (ready - after) / 0.05 <= (ready - before) / 0.05 - 1.0;
  }
}
