/** From the gates to the wire: the order in which one REST call passes the gates, the reservation
    every call holds before its first attempt, and what that bounds on the wire. */
module Wire {
  import opened Basics
  import opened SlidingWindow
  import opened RestUsage
  import opened Sends
  import TokenBucket
  import Pacer

  datatype Lane = Execution | Background | Bootstrap

  /** Only execution priority leaves the scanner lanes and their budgets, and a call that claims it is
      never refused one. */
  function ResolveLane(executionPriority: bool, executing: bool, bootstrapping: bool): (lane: Lane)
    ensures LaneComponent(lane) == Order <==> executionPriority || executing
    ensures LaneComponent(lane) == Hot <==> bootstrapping && !executionPriority && !executing
  {
    if executionPriority || executing then Execution else if bootstrapping then Bootstrap else Background
  }

  function LaneComponent(lane: Lane): Component {
    match lane case Execution => Order case Bootstrap => Hot case Background => Normal
  }

  /** The verdicts of the gates that keep no state of their own in this model. */
  datatype Request = Request(
    weight: int, lane: Lane, isOrderSubmit: bool,
    open: bool,         // ban, hard stop, scan cycle and safety mode all let the call pass
    intervalFree: bool, // the minimum-interval limiter
    budgetFree: bool)   // the per-lane budget manager

  datatype Clock = Clock(pace: real, take: real, decay: real, purge: real, stamp: real) {
    predicate Runs() { 0.0 < pace <= take <= decay <= purge <= stamp }
  }

  datatype Reply = Answer | NetworkError | OtherError

  datatype Outcome = Refused | Answered | Failed

  class RestGateway {
    const usage: RestUsageTracker
    const bucket: TokenBucket.RestTokenBucket
    const pacer: Pacer.ComponentRestPacer
    const strict: bool
    const networkRetries: int
    const backoffCap: real
    ghost var sends: seq<Send>

    ghost function Attempts(): nat { AtLeastOne(networkRetries) }

    ghost predicate Valid()
      reads this, usage, usage.local, bucket, pacer
    {
      && usage.Valid() && bucket.State().Valid() && pacer.Valid()
      && WellSent(usage.local.log, sends, Attempts(), backoffCap) && backoffCap >= 0.0
    }

    constructor (usage: RestUsageTracker, bucket: TokenBucket.RestTokenBucket, pacer: Pacer.ComponentRestPacer,
                 strict: bool, networkRetries: int, backoffCap: real)
      requires usage.Valid() && bucket.State().Valid() && pacer.Valid() && backoffCap >= 0.0
      ensures Valid() && sends == []
      ensures this.usage == usage && this.bucket == bucket && this.pacer == pacer
      ensures this.strict == strict && this.networkRetries == networkRetries && this.backoffCap == backoffCap
    {
      this.usage, this.bucket, this.pacer := usage, bucket, pacer;
      this.strict, this.networkRetries, this.backoffCap := strict, networkRetries, backoffCap;
      sends := [];
    }

    /** What the used-weight governor decides for a scanner lane. */
    ghost predicate Reservable(req: Request, t: Clock)
      reads this, usage, usage.local
    {
      var c := LaneComponent(req.lane);
      && usage.Projected(t.decay, t.purge) + AtLeastOne(req.weight) <= usage.limits.Ceiling(c)
      && Charge(usage.local.log, {c}, t.purge - SPAN, t.purge) + AtLeastOne(req.weight) <= usage.limits.Budget(c)
    }

    /** A scanner call under strict limiting finds its lane's pacing slot free. */
    ghost predicate TakesSlot(req: Request, t: Clock)
      reads this, pacer
    {
      var c := LaneComponent(req.lane);
      && req.open && strict && !req.lane.Execution?
      && (c !in pacer.last || pacer.last[c] + pacer.gaps.Of(c) <= t.pace)
    }

    /** The gates of a scanner lane before its reservation: slot, interval, tokens, lane budget. */
    ghost predicate Paced(req: Request, t: Clock)
      reads this, pacer, bucket
    {
      TakesSlot(req, t) && req.intervalFree && bucket.State().Take(req.weight, t.take).1 && req.budgetFree
    }

    /** Admission. A call gets through exactly when every gate lets it; then, and only then, there is
        one new entry in the reservation log, of its lane and weight. A call refused at a later gate
        keeps the slot and the tokens it took at the earlier ones. */
    method Admit(req: Request, t: Clock, lateness: nat -> real, ghost late: real)
      returns (ok: bool, ghost ticket: nat)
      requires Valid() && t.Runs() && usage.local.UpTo(t.decay)
      requires req.lane.Execution? ==>
                 && bucket.lastRefill <= t.stamp && AtLeastOne(req.weight) as real <= bucket.capacity
                 && forall k :: 0.0 <= lateness(k) <= late
      modifies this, usage, usage.local, bucket, pacer
      ensures Valid() && usage.local.UpTo(t.stamp) && sends == old(sends)
      ensures ok <==> req.open && (req.lane.Execution?
                      || ((strict ==> old(Paced(req, t))) && old(Reservable(req, t))))
      ensures var c := LaneComponent(req.lane);
              pacer.slots == if old(TakesSlot(req, t))
                             then old(pacer.slots)[c := old(pacer.SlotsOf(c)) + [t.pace]] else old(pacer.slots)
      ensures !req.lane.Execution? ==>
                bucket.State() == if old(TakesSlot(req, t)) && req.intervalFree
                                  then old(bucket.State()).Take(req.weight, t.take).0 else old(bucket.State())
      ensures ok ==> ticket == |old(usage.local.log)| && Uses(sends, ticket) == 0
                     && (forall i | 0 <= i < |sends| :: sends[i].reservation != ticket)
                     && usage.local.log == old(usage.local.log)
                          + [Entry(t.stamp, AtLeastOne(req.weight), LaneComponent(req.lane))]
      ensures !ok ==> usage.local.log == old(usage.local.log)
    {
      hide RestUsageTracker.Valid, RestUsageTracker.Projected, TimedDeque.Valid, TimedDeque.UpTo, WellSent, Charge,
        TokenBucket.Bucket.Valid, TokenBucket.Bucket.Take, Pacer.ComponentRestPacer.Valid, Uses, Reach, Waits;
      ok, ticket := false, |usage.local.log|;
      usage.local.UpToLater(t.decay, t.purge);
      usage.local.UpToLater(t.decay, t.stamp);
      WellSentUnused(usage.local.log, sends, Attempts(), backoffCap);
      if !req.open {
        return;
      }
      var c := LaneComponent(req.lane);
      ghost var log := usage.local.log;
      if req.lane.Execution? {
        usage.NoteOutgoingWeight(req.weight, t.purge, t.stamp);
        ReservedStaysWellSent(log, sends, Attempts(), backoffCap, usage.local.log[|log|]);
        if strict {
          var _ := bucket.Acquire(req.weight, t.stamp, lateness, late);
        }
        return true, |log|;
      }
      if strict {
        var free := pacer.TryConsume(c, t.pace);
        if !free || !req.intervalFree {
          return;
        }
        var paid := bucket.TryAcquire(req.weight, t.take);
        if !paid || !req.budgetFree {
          return;
        }
      }
      ok := usage.TryReserve(c, req.weight, t.decay, t.purge, t.stamp);
      if ok {
        ReservedStaysWellSent(log, sends, Attempts(), backoffCap, usage.local.log[|log|]);
      }
    }

    /** One attempt under a held reservation, after the back-offs since its earlier ones. */
    method Attempt(req: Request, ghost ticket: nat, at: real)
      requires Valid() && at > 0.0
      requires ticket < |usage.local.log| && usage.local.log[ticket].at <= at && Uses(sends, ticket) < Attempts()
      requires Waits(sends, Send(at, ticket), backoffCap)
      modifies this, pacer
      ensures Valid() && sends == old(sends) + [Send(at, ticket)]
      ensures Uses(sends, ticket) == old(Uses(sends, ticket)) + 1
    {
      hide RestUsageTracker.Valid, RestUsageTracker.Projected, TimedDeque.Valid, TimedDeque.UpTo, WellSent, Charge,
        TokenBucket.Bucket.Valid, TokenBucket.Bucket.Take, Pacer.ComponentRestPacer.Valid, Uses, Reach, Waits;
      if strict && req.lane.Execution? {
        var _, _ := pacer.Wait(Order, at);
      }
      UsedOnceMore(usage.local.log, sends, Attempts(), backoffCap, Send(at, ticket));
      sends := sends + [Send(at, ticket)];
    }

    /** One call from the gates to the wire. Network errors are retried after a back-off, an order
        submission never: nothing is sent without a reservation, an order at most once, everything else
        at most `Attempts()` times under its one reservation. */
    method ThrottledCall(req: Request, t: Clock, lateness: nat -> real, ghost late: real,
                         replies: nat -> Reply, sendAt: nat -> real)
      returns (outcome: Outcome, ghost attempts: nat)
      requires Valid() && t.Runs() && usage.local.UpTo(t.decay)
      requires req.lane.Execution? ==>
                 && bucket.lastRefill <= t.stamp && AtLeastOne(req.weight) as real <= bucket.capacity
                 && forall k :: 0.0 <= lateness(k) <= late
      requires sendAt(0) >= t.stamp && forall k: nat :: sendAt(k + 1) >= sendAt(k) + Backoff(k + 1, backoffCap)
      modifies this, usage, usage.local, bucket, pacer
      ensures Valid()
      ensures |sends| == |old(sends)| + attempts && sends[..|old(sends)|] == old(sends)
      ensures forall k | 0 <= k < attempts ::
                sends[|old(sends)| + k] == Send(sendAt(k), |old(usage.local.log)|)
      ensures attempts <= if req.isOrderSubmit then 1 else Attempts()
      ensures outcome.Refused? <==> attempts == 0
      ensures attempts > 0 ==>
                && usage.local.log == old(usage.local.log)
                     + [Entry(t.stamp, AtLeastOne(req.weight), LaneComponent(req.lane))]
                && (outcome.Answered? <==> replies(attempts - 1).Answer?)
      ensures forall k | 0 <= k < attempts - 1 :: replies(k).NetworkError?
      ensures attempts > 0 && replies(attempts - 1).NetworkError? ==>
                attempts == if req.isOrderSubmit then 1 else Attempts()
    {
      hide RestUsageTracker.Valid, RestUsageTracker.Projected, TimedDeque.Valid, TimedDeque.UpTo, WellSent, Charge,
        TokenBucket.Bucket.Valid, TokenBucket.Bucket.Take, Pacer.ComponentRestPacer.Valid, Uses, Reach, Waits;
      attempts := 0;
      var ok; ghost var ticket;
      ok, ticket := Admit(req, t, lateness, late);
      if !ok {
        return Refused, 0;
      }
      var limit := if req.isOrderSubmit then 1 else AtLeastOne(networkRetries);
      for attempt := 0 to limit
        invariant Valid() && attempts == attempt
        invariant usage.local.log == old(usage.local.log)
                    + [Entry(t.stamp, AtLeastOne(req.weight), LaneComponent(req.lane))]
        invariant |sends| == |old(sends)| + attempt && sends[..|old(sends)|] == old(sends)
        invariant forall k | 0 <= k < attempt :: sends[|old(sends)| + k] == Send(sendAt(k), ticket)
        invariant Uses(sends, ticket) == attempt
        invariant forall i | 0 <= i < |old(sends)| :: sends[i].reservation != ticket
        invariant forall k | 0 <= k < attempt :: replies(k).NetworkError?
      {
        RetriesWait(sends, |old(sends)|, attempt, sendAt, ticket, backoffCap);
        Attempt(req, ticket, sendAt(attempt));
        attempts := attempts + 1;
        if replies(attempt).Answer? {
          return Answered, attempts;
        }
        if replies(attempt).OtherError? {
          return Failed, attempts;
        }
      }
      return Failed, attempts;
    }

    /** The bound on the wire, in every reachable state: if every attempt goes out within `delay` of
        its reservation, every window that exceeds 60 seconds less the delay by no more than the
        back-offs of an even split of the attempts carries at most the lane's budget times the attempts. */
    lemma WindowsBounded(delay: real, lo: real, hi: real)
      requires Valid() && Prompt(usage.local.log, sends, delay)
      requires hi - lo + delay <= SPAN + MinReal(Slack(Attempts(), backoffCap), SPAN)
      ensures Sent(usage.local.log, sends, |usage.local.log|, {Normal}, lo, hi) <= Attempts() * usage.limits.normal
      ensures Sent(usage.local.log, sends, |usage.local.log|, {Hot}, lo, hi) <= Attempts() * usage.limits.hot
    {
      OneWindow(usage.limits, Normal, usage.local.log, sends, Attempts(), backoffCap, delay, lo, hi);
      OneWindow(usage.limits, Hot, usage.local.log, sends, Attempts(), backoffCap, delay, lo, hi);
    }

    /** A full 60-second window carries at most twice that, as long as no attempt is more than a span
        late. */
    lemma FullWindowsBounded(delay: real, lo: real, hi: real)
      requires Valid() && 0.0 <= delay <= SPAN && Prompt(usage.local.log, sends, delay) && lo <= hi <= lo + SPAN
      ensures Sent(usage.local.log, sends, |usage.local.log|, {Normal}, lo, hi)
              <= Attempts() * (2 * usage.limits.normal)
      ensures Sent(usage.local.log, sends, |usage.local.log|, {Hot}, lo, hi)
              <= Attempts() * (2 * usage.limits.hot)
    {
      var log := usage.local.log;
      assert log[..|log|] == log;
      SentIsReserved(log, sends, |log|, Attempts(), backoffCap, delay, {Normal}, lo, hi);
      SentIsReserved(log, sends, |log|, Attempts(), backoffCap, delay, {Hot}, lo, hi);
      ChargeSplits(log, {Normal}, lo - delay, lo, hi);
      ChargeSplits(log, {Hot}, lo - delay, lo, hi);
      usage.EveryWindowWithinBudget(lo - delay, lo);
      usage.EveryWindowWithinBudget(lo, hi);
      Below(Attempts(), Charge(log, {Normal}, lo - delay, hi), 2 * usage.limits.normal);
      Below(Attempts(), Charge(log, {Hot}, lo - delay, hi), 2 * usage.limits.hot);
    }
  }

  /** Pausing after every attempt adds up. */
  lemma {:induction false} RetriesWait(
    sends: seq<Send>, before: nat, attempt: nat, sendAt: nat -> real, ticket: nat, cap: real)
    requires |sends| == before + attempt && Uses(sends, ticket) == attempt
    requires forall i | 0 <= i < before :: sends[i].reservation != ticket
    requires forall k | 0 <= k < attempt :: sends[before + k] == Send(sendAt(k), ticket)
    requires cap >= 0.0 && forall k: nat :: sendAt(k + 1) >= sendAt(k) + Backoff(k + 1, cap)
    ensures Waits(sends, Send(sendAt(attempt), ticket), cap) && sendAt(attempt) >= sendAt(0)
  {
    hide Uses;
    forall i | 0 <= i < |sends| ensures sends[i].reservation == ticket <==> i >= before {
      if i >= before { assert sends[before + (i - before)] == Send(sendAt(i - before), ticket); }
    }
    forall i | 0 <= i < |sends| && sends[i].reservation == ticket
      ensures sendAt(attempt) - sends[i].at >= Reach(attempt, cap) - Reach(Uses(sends[..i], ticket), cap)
    {
      var k: nat := i - before;
      assert sends[before + k] == Send(sendAt(k), ticket);
      UsesSince(sends, before, k, ticket);
      PausesAddUp(k, attempt, sendAt, cap);
    }
    PausesAddUp(0, attempt, sendAt, cap);
    ReachGrows(0, attempt, cap);
  }

  lemma {:induction false} UsesSince(sends: seq<Send>, before: nat, n: nat, ticket: nat)
    requires before + n <= |sends|
    requires forall i | 0 <= i < before + n :: sends[i].reservation == ticket <==> i >= before
    ensures Uses(sends[..before + n], ticket) == n
  {
    if n > 0 {
      UsesSince(sends, before, n - 1, ticket);
      assert sends[..before + n] == sends[..before + n - 1] + [sends[before + n - 1]];
      UsesOfMore(sends[..before + n - 1], sends[before + n - 1], ticket);
    } else if before > 0 {
      UnusedPrefix(sends[..before], ticket);
    }
  }

  lemma {:induction false} UnusedPrefix(sends: seq<Send>, ticket: nat)
    requires forall i | 0 <= i < |sends| :: sends[i].reservation != ticket
    ensures Uses(sends, ticket) == 0
  {
    if sends != [] {
      UnusedPrefix(sends[..|sends| - 1], ticket);
    }
  }

  lemma {:induction false} PausesAddUp(k: nat, m: nat, sendAt: nat -> real, cap: real)
    requires k <= m && forall k: nat :: sendAt(k + 1) >= sendAt(k) + Backoff(k + 1, cap)
    ensures sendAt(m) - sendAt(k) >= Reach(m, cap) - Reach(k, cap)
  {
    if k < m {
      PausesAddUp(k, m - 1, sendAt, cap);
      assert sendAt(m - 1 + 1) >= sendAt(m - 1) + Backoff(m - 1 + 1, cap);
    }
  }
}
