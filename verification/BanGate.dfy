/** The REST ban gate: a local halt timer in whole seconds and a ban timestamp in milliseconds,
    with self-recovery once either has run out. */
module BanGate {
  import opened Basics

  /** Whole seconds left until `untilMs`, as the ban status reports them. */
  function SecondsRemaining(untilMs: nat, now: real): int {
    if untilMs == 0 then 0 else Max((untilMs - (now * 1000.0).Floor) / 1000, 0)
  }

  datatype BanStatus = NoBan | Banned(untilMs: nat) {
    predicate TimestampExpired(now: real) {
      Banned? && untilMs != 0 && SecondsRemaining(untilMs, now) <= 0
    }
  }

  datatype Gate = Gate(blockedUntil: real, ban: BanStatus, banActive: bool) {
    predicate RecoveryDue(c: Readings) {
      var timerActive := c.timer < blockedUntil;
      if timerActive && !ban.TimestampExpired(c.expiry) then false
      else
        || ban.TimestampExpired(c.expiry)
        || (blockedUntil > 0.0 && !timerActive)
        || (banActive && (ban.NoBan? || ban.TimestampExpired(c.again)) && !timerActive)
    }

    /** Seconds the gate still reports, after truncation. */
    function Remaining(expiry: real, left: real): int {
      if ban.TimestampExpired(expiry) then 0 else Max((blockedUntil - left).Floor, 0)
    }

    function Block(minHalt: int, untilMs: nat, remainingAt: real, stampAt: real): Gate {
      var left := MaxReal(untilMs as real / 1000.0 - remainingAt, 0.0);
      var halt := if untilMs != 0 then Max(minHalt, left.Floor) else minHalt;
      Gate(MaxReal(blockedUntil, stampAt + halt as real),
           if untilMs != 0 then Banned(untilMs) else ban,
           true)
    }

    /** One `is_rest_blocked` call. It looks at the clock up to eight times; another thread may hold
        the recovery lock. */
    function Ask(q: Query): (Gate, bool) {
      if RecoveryDue(q.first) && q.lockFree && RecoveryDue(q.second) then (CLEARED, false)
      else (this, Remaining(q.expiry, q.left) > 0)
    }
  }

  const CLEARED := Gate(0.0, NoBan, false)

  /** The clock readings of one look whether recovery is due. */
  datatype Readings = Readings(expiry: real, timer: real, again: real) {
    predicate Ordered() { expiry <= timer <= again }
  }

  datatype Query = Query(first: Readings, second: Readings, expiry: real, left: real, lockFree: bool) {
    predicate Ordered() {
      first.Ordered() && second.Ordered() && first.again <= second.expiry && second.again <= expiry <= left
    }

    /** When the call begins. */
    function Start(): real { first.expiry }
  }

  /** A call that sees one instant only. */
  function Instant(now: real): Query {
    Query(Readings(now, now, now), Readings(now, now, now), now, now, true)
  }

  /** The gate after a run of queries. */
  function After(g: Gate, queries: seq<Query>): Gate
    decreases |queries|
  {
    if queries == [] then g else After(g.Ask(queries[0]).0, queries[1..])
  }

  ghost predicate Ticking(from: real, queries: seq<Query>) {
    && 0.0 <= from
    && (forall i | 0 <= i < |queries| :: from <= queries[i].Start() && queries[i].Ordered())
    && (forall i, j | 0 <= i < j < |queries| :: queries[i].left <= queries[j].Start())
  }

  /** The timestamp counts as expired exactly from 999 milliseconds before it. */
  lemma ExpiresOneSecondEarly(untilMs: nat, now: real)
    requires untilMs != 0
    ensures Banned(untilMs).TimestampExpired(now) <==> (now * 1000.0).Floor > untilMs - 1000
  {}

  /** What one block leaves behind, and what every query keeps until recovery. */
  ghost predicate Covers(g: Gate, untilMs: nat) {
    g.ban == Banned(untilMs) && g.blockedUntil > untilMs as real / 1000.0 - 1.0
  }

  lemma BlockCovers(g: Gate, minHalt: int, untilMs: nat, remainingAt: real, stampAt: real)
    requires untilMs != 0 && remainingAt <= stampAt
    ensures Covers(g.Block(minHalt, untilMs, remainingAt, stampAt), untilMs)
  {}

  lemma AskWhileCovered(g: Gate, untilMs: nat, q: Query)
    requires untilMs != 0 && Covers(g, untilMs) && 0.0 <= q.Start() && q.Ordered()
    ensures q.left <= untilMs as real / 1000.0 - 2.0 ==> g.Ask(q) == (g, true)
    ensures q.Start() >= untilMs as real / 1000.0 ==> !g.Ask(q).1
    ensures g.Ask(q).0 == g || g.Ask(q).0 == CLEARED
  {
    TimestampByThen(untilMs, q.first);
    TimestampByThen(untilMs, q.second);
    TimestampByThen(untilMs, Readings(q.expiry, q.expiry, q.left));
    hide SecondsRemaining;
  }

  /** Two seconds before the timestamp no reading finds it expired, from the timestamp on all do. */
  lemma TimestampByThen(untilMs: nat, c: Readings)
    requires untilMs != 0 && 0.0 <= c.expiry && c.Ordered()
    ensures var ban := Banned(untilMs);
            && (c.again <= untilMs as real / 1000.0 - 2.0 ==>
                  !ban.TimestampExpired(c.expiry) && !ban.TimestampExpired(c.again))
            && (c.expiry >= untilMs as real / 1000.0 ==> ban.TimestampExpired(c.expiry))
  {
    ExpiresOneSecondEarly(untilMs, c.expiry);
    ExpiresOneSecondEarly(untilMs, c.again);
    if c.again <= untilMs as real / 1000.0 - 2.0 {
      assert c.again * 1000.0 <= untilMs as real - 2000.0;
      assert c.expiry * 1000.0 <= untilMs as real - 2000.0;
    }
    if c.expiry >= untilMs as real / 1000.0 {
      assert c.expiry * 1000.0 >= untilMs as real;
    }
  }

  /** Over any run of queries after a ban until U, with no later block: blocked at every time up to
      U - 2 s and open at every time from U on, whatever halt was in force before. */
  lemma {:induction false} BanWindow(
    g: Gate, minHalt: int, untilMs: nat, remainingAt: real, stampAt: real, queries: seq<Query>, q: Query)
    requires untilMs != 0 && remainingAt <= stampAt && Ticking(stampAt, queries + [q])
    ensures var blocked := After(g.Block(minHalt, untilMs, remainingAt, stampAt), queries).Ask(q).1;
            && (q.left <= untilMs as real / 1000.0 - 2.0 ==> blocked)
            && (q.Start() >= untilMs as real / 1000.0 ==> !blocked)
  {
    BlockCovers(g, minHalt, untilMs, remainingAt, stampAt);
    assert (queries + [q])[|queries|] == q;
    CoveredRun(g.Block(minHalt, untilMs, remainingAt, stampAt), untilMs, stampAt, queries, q);
  }

  lemma {:induction false} CoveredRun(g: Gate, untilMs: nat, from: real, queries: seq<Query>, q: Query)
    requires untilMs != 0 && Ticking(from, queries + [q])
    requires Covers(g, untilMs) || (g == CLEARED && q.left > untilMs as real / 1000.0 - 2.0)
    ensures var blocked := After(g, queries).Ask(q).1;
            && (q.left <= untilMs as real / 1000.0 - 2.0 ==> blocked)
            && (q.Start() >= untilMs as real / 1000.0 ==> !blocked)
    decreases |queries|
  {
    var all := queries + [q];
    if queries == [] {
      assert all[0] == q;
      if g != CLEARED {
        AskWhileCovered(g, untilMs, q);
      }
    } else {
      assert all[0] == queries[0] && all[|queries|] == q;
      var rest := queries[1..] + [q];
      assert rest == all[1..];
      assert Ticking(from, rest) && queries[0].left <= q.left;
      if g != CLEARED {
        AskWhileCovered(g, untilMs, queries[0]);
      }
      CoveredRun(g.Ask(queries[0]).0, untilMs, from, queries[1..], q);
    }
  }

  /** Between U - 2 s and U the answer is exact: with the halt timer out of the way, a query at one
      instant is blocked exactly while more than 999 ms are missing. */
  lemma ExactThreshold(g: Gate, untilMs: nat, now: real)
    requires untilMs != 0 && g.ban == Banned(untilMs) && now <= g.blockedUntil - 1.0
    ensures g.Ask(Instant(now)).1 <==> (now * 1000.0).Floor <= untilMs - 1000
  {
    ExpiresOneSecondEarly(untilMs, now);
  }

  /** Right after a block with a timestamp the answer at every instant is exact, whatever was in force
      before: blocked while more than 999 ms are missing to the timestamp and a full second to the halt, which
      lasts the longest of the least halt, the whole seconds left at the block, and what was in force. */
  lemma BlockedIff(g: Gate, minHalt: nat, untilMs: nat, at: real, now: real)
    requires untilMs != 0 && 0.0 <= at <= now
    ensures g.Block(minHalt, untilMs, at, at).Ask(Instant(now)).1 <==>
              && (now * 1000.0).Floor <= untilMs - 1000
              && (|| now <= g.blockedUntil - 1.0
                  || now <= at + minHalt as real - 1.0
                  || now <= at + (untilMs as real / 1000.0 - at).Floor as real - 1.0)
  {
    ExpiresOneSecondEarly(untilMs, now);
    hide SecondsRemaining;
  }

  /** When recovery is due: once the timestamp has expired, or the halt has. The flag of an active ban makes
      no difference to a gate that was ever blocked. */
  lemma RecoveryDueIff(g: Gate, c: Readings)
    ensures g.RecoveryDue(c) <==>
              || g.ban.TimestampExpired(c.expiry)
              || (c.timer >= g.blockedUntil
                  && (g.blockedUntil > 0.0
                      || (g.banActive && (g.ban.NoBan? || g.ban.TimestampExpired(c.again)))))
    ensures g.blockedUntil > 0.0 ==> g.RecoveryDue(c) == g.(banActive := !g.banActive).RecoveryDue(c)
  {
    hide SecondsRemaining;
  }

  /** What is due at the first look is due at the second, so a thread fails to clear a gate that is due
      exactly when another holds the recovery lock; the gate is then left as it is, and still opens. */
  lemma DueIsClearedIff(g: Gate, q: Query)
    requires q.Ordered() && 0.0 <= q.Start()
    ensures g.Ask(q).0 == (if g.RecoveryDue(q.first) && q.lockFree then CLEARED else g)
    ensures g.RecoveryDue(q.first) ==> !g.Ask(q).1
  {
    StaysExpired(g.ban, q.first.expiry, q.second.expiry);
    StaysExpired(g.ban, q.first.again, q.second.again);
    StaysExpired(g.ban, q.first.expiry, q.expiry);
    hide SecondsRemaining;
  }

  lemma StaysExpired(ban: BanStatus, now: real, later: real)
    requires 0.0 <= now <= later
    ensures ban.TimestampExpired(now) ==> ban.TimestampExpired(later)
  {
    if ban.TimestampExpired(now) {
      ExpiresOneSecondEarly(ban.untilMs, now);
      ExpiresOneSecondEarly(ban.untilMs, later);
      assert now * 1000.0 <= later * 1000.0;
    }
  }

  // ---- A block without a timestamp ----

  /** No ban, halted until `deadline`. */
  ghost predicate HaltedUntil(g: Gate, deadline: real) {
    g.ban.NoBan? && g.blockedUntil == deadline > 0.0
  }

  lemma AskWhileHalted(g: Gate, deadline: real, q: Query)
    requires HaltedUntil(g, deadline) && q.Ordered()
    ensures g.Ask(q).1 <==> q.left <= deadline - 1.0
    ensures g.Ask(q).0 == g || (g.Ask(q).0 == CLEARED && q.left >= deadline)
  {}

  lemma {:induction false} HaltedRun(g: Gate, deadline: real, from: real, queries: seq<Query>, q: Query)
    requires Ticking(from, queries + [q])
    requires HaltedUntil(g, deadline) || (g == CLEARED && q.left >= deadline)
    ensures After(g, queries).Ask(q).1 <==> q.left <= deadline - 1.0
    decreases |queries|
  {
    var all := queries + [q];
    if queries == [] {
      assert all[0] == q;
      if g != CLEARED {
        AskWhileHalted(g, deadline, q);
      }
    } else {
      assert all[0] == queries[0] && all[|queries|] == q;
      assert queries[1..] + [q] == all[1..];
      assert Ticking(from, queries[1..] + [q]) && queries[0].left <= q.left;
      if g != CLEARED {
        AskWhileHalted(g, deadline, queries[0]);
      }
      HaltedRun(g.Ask(queries[0]).0, deadline, from, queries[1..], q);
    }
  }

  /** A rate limit without a timestamp, while no ban is on record: over any run of queries the gate is
      blocked exactly until a second before the halt ends, the least halt after the block or a longer one
      already in force. */
  lemma {:induction false} HaltWindow(
    g: Gate, minHalt: nat, remainingAt: real, stampAt: real, queries: seq<Query>, q: Query)
    requires g.ban.NoBan? && 0 < minHalt && Ticking(stampAt, queries + [q])
    ensures After(g.Block(minHalt, 0, remainingAt, stampAt), queries).Ask(q).1
            <==> q.left <= stampAt + minHalt as real - 1.0 || q.left <= g.blockedUntil - 1.0
  {
    HaltedRun(g.Block(minHalt, 0, remainingAt, stampAt), MaxReal(g.blockedUntil, stampAt + minHalt as real), stampAt,
              queries, q);
  }

  /** With a ban on record the halt counts only until that ban's timestamp is within a second: a rate limit
      that arrives after it, before any query has cleared the ban, is lost. */
  lemma ExpiredBanVoidsHalt(g: Gate, minHalt: nat, untilMs: nat, remainingAt: real, stampAt: real, now: real)
    requires g.ban == Banned(untilMs) && untilMs != 0 && 0.0 <= stampAt <= now
    ensures g.Block(minHalt, 0, remainingAt, stampAt).Ask(Instant(now)).1
            <==> (now * 1000.0).Floor <= untilMs - 1000
                 && (now <= stampAt + minHalt as real - 1.0 || now <= g.blockedUntil - 1.0)
    ensures (stampAt * 1000.0).Floor > untilMs - 1000 ==>
              g.Block(minHalt, 0, remainingAt, stampAt).Ask(Instant(now)) == (CLEARED, false)
  {
    ExpiresOneSecondEarly(untilMs, now);
    hide SecondsRemaining;
    if (stampAt * 1000.0).Floor > untilMs - 1000 {
      assert stampAt * 1000.0 <= now * 1000.0;
    }
  }

  class RestBanGate {
    const minHalt: int
    var blockedUntil: real
    var ban: BanStatus
    var banActive: bool

    ghost function State(): Gate
      reads this
    {
      Gate(blockedUntil, ban, banActive)
    }

    constructor (minHalt: int)
      ensures State() == CLEARED && this.minHalt == minHalt
    {
      this.minHalt := minHalt;
      blockedUntil, ban, banActive := 0.0, NoBan, false;
    }

    method BlockRestForBan(untilMs: nat, remainingAt: real, stampAt: real)
      modifies this
      ensures State() == old(State()).Block(minHalt, untilMs, remainingAt, stampAt)
      ensures banActive && blockedUntil >= old(blockedUntil) && blockedUntil >= stampAt + minHalt as real
    {
      var halt := minHalt;
      if untilMs != 0 {
        var remaining := MaxReal(untilMs as real / 1000.0 - remainingAt, 0.0);
        halt := Max(halt, remaining.Floor);
        ban := Banned(untilMs);
      }
      blockedUntil := MaxReal(blockedUntil, stampAt + halt as real);
      banActive := true;
    }

    method RecoveryDue(c: Readings) returns (due: bool)
      ensures due == State().RecoveryDue(c)
    {
      var expired := ban.TimestampExpired(c.expiry);
      var timerActive := c.timer < blockedUntil;
      var timerExpired := blockedUntil > 0.0 && !timerActive;
      if timerActive && !expired {
        return false;
      }
      due := || expired || timerExpired
             || (banActive && (ban.NoBan? || ban.TimestampExpired(c.again)) && !timerActive);
    }

    /** Clears the halt once; a thread that finds the recovery lock taken leaves it to the other. */
    method MaybeRecover(first: Readings, second: Readings, lockFree: bool) returns (recovered: bool)
      modifies this
      ensures recovered == (old(State()).RecoveryDue(first) && lockFree && old(State()).RecoveryDue(second))
      ensures State() == if recovered then CLEARED else old(State())
    {
      var due := RecoveryDue(first);
      if !due || !lockFree {
        return false;
      }
      due := RecoveryDue(second);
      if !due {
        return false;
      }
      blockedUntil, ban, banActive := 0.0, NoBan, false;
      return true;
    }

    method IsRestBlocked(q: Query) returns (blocked: bool)
      modifies this
      ensures State() == old(State()).Ask(q).0 && blocked == old(State()).Ask(q).1
    {
      var recovered := MaybeRecover(q.first, q.second, q.lockFree);
      if recovered {
        return false;
      }
      var remaining := 0;
      if !ban.TimestampExpired(q.expiry) {
        remaining := Max((blockedUntil - q.left).Floor, 0);
      }
      return remaining > 0;
    }
  }
}
