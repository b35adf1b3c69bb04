/** Full market closes per trade and reason: counted, exhausted after a fixed number of attempts, and
    open for retry again after a cooldown. Calls of one monitor are serialised. */
module CloseAttempts {
  import opened Basics

  datatype Key = Key(trade: string, reason: string)

  const COOLDOWN := 45.0

  ghost predicate Ordered(log: seq<real>) {
    forall i, j | 0 <= i < j < |log| :: log[i] <= log[j]
  }

  /** Entries that are `limit` or more apart in the log are a cooldown or more apart in time. */
  ghost predicate Spread(log: seq<real>, limit: nat) {
    forall i, j | 0 <= i && i + limit <= j < |log| :: log[i] + COOLDOWN <= log[j]
  }

  /** What the counter, the exhausted flag and its time say about the enqueues since the last clear:
      the last `count` of them belong to the current round, and the round before ended a cooldown
      earlier. */
  ghost predicate Tracks(log: seq<real>, limit: nat, count: nat, exhausted: bool, since: Option<real>, seen: real) {
    && Ordered(log) && Spread(log, limit)
    && (forall i | 0 <= i < |log| :: log[i] <= seen)
    && count <= |log| && count <= limit
    && (exhausted <==> count == limit)
    && (exhausted ==> |log| > 0 && since == Some(log[|log| - 1]))
    && (!exhausted ==> since.None?)
    && (count < |log| ==>
          && log[|log| - count - 1] + COOLDOWN <= seen
          && forall j | |log| - count <= j < |log| :: log[|log| - count - 1] + COOLDOWN <= log[j])
  }

  lemma EnqueueSpreads(log: seq<real>, limit: nat, count: nat, seen: real, now: real)
    requires Tracks(log, limit, count, false, None, seen) && seen <= now
    ensures Spread(log + [now], limit)
  {
    var more := log + [now];
    forall i, j | 0 <= i && i + limit <= j < |more| ensures more[i] + COOLDOWN <= more[j] {
      if j == |log| {
        assert i <= |log| - count - 1;
        assert i < |log| - count - 1 ==> log[i] <= log[|log| - count - 1];
      }
    }
  }

  lemma EnqueueTracks(log: seq<real>, limit: nat, count: nat, seen: real, now: real)
    requires Tracks(log, limit, count, false, None, seen) && seen <= now
    ensures Tracks(log + [now], limit, count + 1, count + 1 == limit,
                   if count + 1 == limit then Some(now) else None, now)
  {
    EnqueueSpreads(log, limit, count, seen, now);
    hide Spread;
    if count < |log| {
      assert (log + [now])[|log| - count - 1] == log[|log| - count - 1];
    }
  }

  lemma TracksLater(log: seq<real>, limit: nat, count: nat, exhausted: bool, since: Option<real>, seen: real, now: real)
    requires Tracks(log, limit, count, exhausted, since, seen) && seen <= now
    ensures Tracks(log, limit, count, exhausted, since, now)
  {}

  /** The cooldown is over: a new round starts. */
  lemma CooldownTracks(log: seq<real>, limit: nat, count: nat, since: real, seen: real, now: real)
    requires limit >= 1
    requires Tracks(log, limit, count, true, Some(since), seen) && seen <= now && now - since >= COOLDOWN
    ensures Tracks(log, limit, 0, false, None, now)
  {}

  lemma EmptyTracks(limit: nat, seen: real)
    requires limit >= 1
    ensures Tracks([], limit, 0, false, None, seen)
  {}

  /** In any span shorter than the cooldown there are at most `limit` enqueues. */
  lemma SpreadBoundsWindow(log: seq<real>, limit: nat, first: nat, last: nat)
    requires Spread(log, limit) && first <= last < |log| && log[last] - log[first] < COOLDOWN
    ensures last - first + 1 <= limit
  {}

  function Of(keys: set<Key>, trade: string): set<Key> {
    set key | key in keys && key.trade == trade
  }

  lemma OneMore(keys: set<Key>, key: Key, trade: string)
    ensures Of(keys + {key}, trade) == Of(keys, trade) + (if key.trade == trade then {key} else {})
  {}

  /** The three maps of the monitor, and every enqueue since the last clear. */
  datatype Rounds = Rounds(
    attempts: map<Key, nat>, exhausted: set<Key>, exhaustedAt: map<Key, real>,
    log: map<Key, seq<real>>, seen: real)
  {
    function Count(key: Key): nat { if key in attempts then attempts[key] else 0 }

    function Since(key: Key): Option<real> { if key in exhaustedAt then Some(exhaustedAt[key]) else None }

    function Log(key: Key): seq<real> { if key in log then log[key] else [] }

    ghost predicate Tracked(key: Key, limit: nat) {
      Tracks(Log(key), limit, Count(key), key in exhausted, Since(key), seen)
    }

    /** Attempts without a trade id are counted but never limited. */
    ghost predicate AllTracked(limit: nat) {
      && (forall key: Key | key.trade != "" :: Tracked(key, limit))
      && (forall key | key in exhausted :: key in attempts)
    }

    function Later(now: real): Rounds { this.(seen := now) }

    function Noted(key: Key, now: real, limit: nat): Rounds {
      var full := Count(key) + 1 >= limit;
      Rounds(
        attempts[key := Count(key) + 1],
        if full then exhausted + {key} else exhausted,
        if full then exhaustedAt[key := now] else exhaustedAt,
        log[key := Log(key) + [now]], now)
    }

    predicate CooledDown(key: Key, now: real) {
      key in exhaustedAt && exhaustedAt[key] > 0.0 && now - exhaustedAt[key] >= COOLDOWN
    }

    function Reopened(key: Key, now: real): Rounds {
      Rounds(attempts - {key}, exhausted - {key}, exhaustedAt - {key}, log, now)
    }

    function Cleared(trade: string): Rounds {
      var gone := Of(attempts.Keys, trade);
      Rounds(attempts - gone, exhausted - gone, exhaustedAt - gone,
             map key | key in log && key.trade != trade :: log[key], seen)
    }

    lemma LaterTracked(now: real, limit: nat)
      requires AllTracked(limit) && seen <= now
      ensures Later(now).AllTracked(limit)
    {
      hide Tracks;
      forall key: Key | key.trade != "" ensures Later(now).Tracked(key, limit) {
        assert Tracked(key, limit);
        TracksLater(Log(key), limit, Count(key), key in exhausted, Since(key), seen, now);
      }
    }

    lemma NotedTracksKey(key: Key, now: real, limit: nat)
      requires Tracked(key, limit) && seen <= now && key !in exhausted
      ensures Noted(key, now, limit).Tracked(key, limit)
    {
      assert Since(key).None? && Count(key) < limit;
      EnqueueTracks(Log(key), limit, Count(key), seen, now);
      hide Tracks;
    }

    /** Counter, flag and log stay in step over one more enqueue exactly when the key was not
        exhausted. */
    lemma NotedTracked(key: Key, now: real, limit: nat)
      requires AllTracked(limit) && seen <= now && limit >= 1
      ensures Noted(key, now, limit).AllTracked(limit) <==> key.trade == "" || key !in exhausted
    {
      if key.trade != "" && key in exhausted {
        assert Tracked(key, limit) && Noted(key, now, limit).Count(key) == limit + 1;
        assert !Noted(key, now, limit).Tracked(key, limit);
      } else {
        NotedTracksAll(key, now, limit);
      }
    }

    lemma NotedTracksAll(key: Key, now: real, limit: nat)
      requires AllTracked(limit) && seen <= now && limit >= 1 && (key.trade == "" || key !in exhausted)
      ensures Noted(key, now, limit).AllTracked(limit)
    {
      if key.trade != "" {
        NotedTracksKey(key, now, limit);
      }
      hide Tracks;
      var after := Noted(key, now, limit);
      forall k: Key | k.trade != "" ensures after.Tracked(k, limit) {
        assert Tracked(k, limit);
        if k != key {
          TracksLater(Log(k), limit, Count(k), k in exhausted, Since(k), seen, now);
        }
      }
    }

    lemma ReopenedTracked(key: Key, now: real, limit: nat)
      requires AllTracked(limit) && seen <= now && limit >= 1
      requires key in exhausted && CooledDown(key, now)
      ensures Reopened(key, now).AllTracked(limit)
    {
      hide Tracks;
      var after := Reopened(key, now);
      forall k: Key | k.trade != "" ensures after.Tracked(k, limit) {
        assert Tracked(k, limit);
        if k == key {
          CooldownTracks(Log(k), limit, Count(k), exhaustedAt[k], seen, now);
        } else {
          TracksLater(Log(k), limit, Count(k), k in exhausted, Since(k), seen, now);
        }
      }
    }

    /** An exhausted key opens again exactly 45 seconds after its last enqueue; it then starts from 0, with
        nothing else changed. */
    lemma ReopensAfterCooldown(key: Key, now: real, limit: nat)
      requires AllTracked(limit) && limit >= 1 && key.trade != "" && key in exhausted
      requires Log(key)[|Log(key)| - 1] > 0.0
      ensures CooledDown(key, now) <==> now >= Log(key)[|Log(key)| - 1] + 45.0
      ensures var after := Reopened(key, now);
              && key !in after.exhausted && after.Count(key) == 0 && after.Since(key).None?
              && forall k: Key ::
                   && after.Log(k) == Log(k)
                   && (k != key ==>
                         && after.Count(k) == Count(k) && after.Since(k) == Since(k)
                         && (k in after.exhausted <==> k in exhausted))
    {
      assert Tracked(key, limit);
    }

    function NotedAll(key: Key, times: seq<real>, limit: nat): Rounds {
      if times == [] then this
      else NotedAll(key, times[..|times| - 1], limit).Noted(key, times[|times| - 1], limit)
    }

    /** An open key is exhausted by the enqueue that reaches the limit, and by no earlier one; the keys
        beside it are not touched. */
    lemma {:induction false} ExhaustedAtLimit(key: Key, times: seq<real>, limit: nat)
      requires AllTracked(limit) && limit >= 1 && key.trade != "" && key !in exhausted
      requires Count(key) + |times| <= limit
      ensures var after := NotedAll(key, times, limit);
              && after.Count(key) == Count(key) + |times|
              && (key in after.exhausted <==> after.Count(key) == limit)
              && (after.Since(key) == if key in after.exhausted then Some(times[|times| - 1]) else None)
              && after.Log(key) == Log(key) + times
              && forall k: Key | k != key ::
                   && after.Count(k) == Count(k) && after.Since(k) == Since(k) && after.Log(k) == Log(k)
                   && (k in after.exhausted <==> k in exhausted)
    {
      assert Tracked(key, limit);
      OpenIsNotSince(key, limit);
      hide AllTracked, Tracked;
      CountsUp(key, times, limit);
      OthersUntouched(key, times, limit);
    }

    lemma OpenIsNotSince(key: Key, limit: nat)
      requires Tracked(key, limit) && key !in exhausted
      ensures Since(key).None? && Count(key) < limit
    {}

    lemma {:induction false} CountsUp(key: Key, times: seq<real>, limit: nat)
      requires key !in exhausted && Since(key).None? && Count(key) < limit && Count(key) + |times| <= limit
      ensures var after := NotedAll(key, times, limit);
              && after.Count(key) == Count(key) + |times|
              && (key in after.exhausted <==> after.Count(key) == limit)
              && (after.Since(key) == if key in after.exhausted then Some(times[|times| - 1]) else None)
              && after.Log(key) == Log(key) + times
    {
      if times == [] {
        assert Log(key) + times == Log(key);
      } else {
        CountsUp(key, times[..|times| - 1], limit);
        assert Log(key) + times[..|times| - 1] + [times[|times| - 1]] == Log(key) + times;
      }
    }

    lemma {:induction false} OthersUntouched(key: Key, times: seq<real>, limit: nat)
      ensures var after := NotedAll(key, times, limit);
              forall k: Key | k != key ::
                && after.Count(k) == Count(k) && after.Since(k) == Since(k) && after.Log(k) == Log(k)
                && (k in after.exhausted <==> k in exhausted)
    {
      if times != [] {
        OthersUntouched(key, times[..|times| - 1], limit);
      }
    }

    /** A clear opens every key of the trade with nothing counted, and touches no other. */
    lemma ClearedForgets(trade: string, limit: nat)
      requires AllTracked(limit) && limit >= 1
      ensures var after := Cleared(trade);
              forall k: Key ::
                && (k.trade == trade ==> after.Count(k) == 0 && k !in after.exhausted && after.Log(k) == [])
                && (k.trade != trade ==>
                      && after.Count(k) == Count(k) && after.Since(k) == Since(k) && after.Log(k) == Log(k)
                      && (k in after.exhausted <==> k in exhausted))
    {}

    lemma ClearedTracked(trade: string, limit: nat)
      requires AllTracked(limit) && limit >= 1
      ensures Cleared(trade).AllTracked(limit)
    {
      var after := Cleared(trade);
      forall k: Key | k.trade != "" ensures after.Tracked(k, limit) {
        assert Tracked(k, limit);
        if k.trade == trade {
          EmptyTracks(limit, seen);
        }
      }
    }
  }

  // ---- The bound itself, and two monitors ----

  /** One more enqueue keeps the bound exactly when the log is still short or the enqueue `limit`
      places back is a cooldown ago. */
  lemma SpreadStepIff(log: seq<real>, limit: nat, now: real)
    requires limit >= 1 && Ordered(log) && Spread(log, limit) && forall i | 0 <= i < |log| :: log[i] <= now
    ensures Spread(log + [now], limit) <==> |log| < limit || log[|log| - limit] + COOLDOWN <= now
  {
    var more := log + [now];
    if |log| >= limit {
      assert more[|log| - limit] == log[|log| - limit] && more[|log|] == now;
      if log[|log| - limit] + COOLDOWN <= now {
        forall i, j | 0 <= i && i + limit <= j < |more| ensures more[i] + COOLDOWN <= more[j] {
          if j == |log| {
            assert i < |log| - limit ==> log[i] <= log[|log| - limit];
          }
        }
      }
    }
  }

  /** Several monitors at one key. The check whether the key is exhausted and the enqueue are separate
      steps; only the enqueue is made under the lock. */
  datatype Race = Race(rounds: Rounds, passed: set<nat>, inflight: bool)

  datatype RaceStep =
    | Check(monitor: nat)
    | Enqueue(monitor: nat, at: real)
    | Done
    | Retry(at: real)

  function RaceNext(r: Race, s: RaceStep, key: Key, limit: nat): Race {
    match s
    case Check(monitor) => if key in r.rounds.exhausted then r else r.(passed := r.passed + {monitor})
    case Enqueue(monitor, at) =>
      if monitor !in r.passed || at < r.rounds.seen then r
      else if r.inflight then r.(passed := r.passed - {monitor})
      else Race(r.rounds.Noted(key, at, limit), r.passed - {monitor}, true)
    case Done => r.(inflight := false)
    case Retry(at) =>
      if at < r.rounds.seen || key !in r.rounds.exhausted || !r.rounds.CooledDown(key, at) then r
      else r.(rounds := r.rounds.Reopened(key, at))
  }

  function RaceRun(r: Race, steps: seq<RaceStep>, key: Key, limit: nat): Race {
    if steps == [] then r
    else RaceNext(RaceRun(r, steps[..|steps| - 1], key, limit), steps[|steps| - 1], key, limit)
  }

  /** The check an enqueue relies on still holds when it happens. */
  ghost predicate FreshCheck(r: Race, s: RaceStep, key: Key) {
    s.Enqueue? && s.monitor in r.passed && s.at >= r.rounds.seen && !r.inflight ==> key !in r.rounds.exhausted
  }

  ghost predicate AllFresh(r: Race, steps: seq<RaceStep>, key: Key, limit: nat) {
    forall n | 0 <= n < |steps| :: FreshCheck(RaceRun(r, steps[..n], key, limit), steps[n], key)
  }

  lemma {:induction false} FreshChecksKeepTracked(r: Race, steps: seq<RaceStep>, key: Key, limit: nat)
    requires r.rounds.AllTracked(limit) && limit >= 1 && key.trade != "" && AllFresh(r, steps, key, limit)
    ensures RaceRun(r, steps, key, limit).rounds.AllTracked(limit)
  {
    hide Rounds.AllTracked, RaceNext, FreshCheck;
    if steps != [] {
      var n := |steps| - 1;
      forall i | 0 <= i < n
        ensures FreshCheck(RaceRun(r, steps[..n][..i], key, limit), steps[..n][i], key)
      {
        assert steps[..n][..i] == steps[..i];
      }
      FreshChecksKeepTracked(r, steps[..n], key, limit);
      RaceStepKeepsTracked(RaceRun(r, steps[..n], key, limit), steps[n], key, limit);
    }
  }

  /** However many monitors interleave: as long as no enqueue relies on a stale check, every window
      stays within the limit. */
  lemma FreshChecksKeepBound(r: Race, steps: seq<RaceStep>, key: Key, limit: nat)
    requires r.rounds.AllTracked(limit) && limit >= 1 && key.trade != "" && AllFresh(r, steps, key, limit)
    ensures Spread(RaceRun(r, steps, key, limit).rounds.Log(key), limit)
  {
    FreshChecksKeepTracked(r, steps, key, limit);
    assert RaceRun(r, steps, key, limit).rounds.Tracked(key, limit);
    hide RaceRun, Spread;
  }

  lemma RaceStepKeepsTracked(r: Race, s: RaceStep, key: Key, limit: nat)
    requires r.rounds.AllTracked(limit) && limit >= 1 && key.trade != "" && FreshCheck(r, s, key)
    ensures RaceNext(r, s, key, limit).rounds.AllTracked(limit)
  {
    hide Rounds.AllTracked;
    match s
    case Enqueue(monitor, at) =>
      if monitor in r.passed && at >= r.rounds.seen && !r.inflight {
        r.rounds.NotedTracked(key, at, limit);
      }
    case Retry(at) =>
      if at >= r.rounds.seen && key in r.rounds.exhausted && r.rounds.CooledDown(key, at) {
        r.rounds.ReopenedTracked(key, at, limit);
      }
    case _ =>
  }

  /** Two monitors that both pass the check before the last allowed enqueue: the second one's enqueue
      breaks the bound exactly when the round it overruns is younger than a cooldown. */
  lemma {:induction false} StaleCheckOverruns(r: Race, key: Key, limit: nat, first: real, second: real)
    requires r.rounds.AllTracked(limit) && limit >= 1 && key.trade != "" && !r.inflight
    requires r.rounds.Count(key) == limit - 1 && r.rounds.seen <= first <= second
    ensures var log := r.rounds.Log(key) + [first];
            var overrun := RaceRun(r, [Check(0), Check(1), Enqueue(0, first), Done, Enqueue(1, second)], key, limit);
            && overrun.rounds.Log(key) == log + [second]
            && |log| >= limit
            && (Spread(log + [second], limit) <==> log[|log| - limit] + COOLDOWN <= second)
  {
    var rounds := r.rounds;
    assert rounds.Tracked(key, limit) && key !in rounds.exhausted;
    rounds.NotedTracked(key, first, limit);
    var noted := rounds.Noted(key, first, limit);
    assert noted.Tracked(key, limit);
    hide Rounds.AllTracked;
    FiveSteps(r, Check(0), Check(1), Enqueue(0, first), Done, Enqueue(1, second), key, limit);
    var checked := RaceNext(RaceNext(r, Check(0), key, limit), Check(1), key, limit);
    var once := RaceNext(checked, Enqueue(0, first), key, limit);
    assert once.rounds == noted && 1 in once.passed;
    SpreadStepIff(noted.Log(key), limit, second);
    hide Spread;
  }

  /** A check of an exhausted key passes nobody, and an enqueue while the close is in flight uses its check up:
      neither adds to the log. */
  lemma BarredStaysOut(r: Race, key: Key, limit: nat, m: nat, first: real, second: real)
    requires m !in r.passed && r.rounds.seen <= first <= second
    ensures key in r.rounds.exhausted ==> RaceRun(r, [Check(m), Enqueue(m, first)], key, limit) == r
    ensures r.inflight && key !in r.rounds.exhausted ==>
              RaceRun(r, [Check(m), Enqueue(m, first), Done] + [Enqueue(m, second)], key, limit).rounds == r.rounds
  {
    TwoOfRace(r, Check(m), Enqueue(m, first), key, limit);
    assert [Check(m), Enqueue(m, first), Done] + [Enqueue(m, second)]
        == [Check(m), Enqueue(m, first), Done, Enqueue(m, second)];
    FourOfRace(r, Check(m), Enqueue(m, first), Done, Enqueue(m, second), key, limit);
    hide RaceRun, Rounds.Noted;
  }

  /** An exhausted key is enqueued again after a retry exactly from a cooldown after its last enqueue on. */
  lemma {:induction false} RetriedIff(r: Race, key: Key, limit: nat, m: nat, at: real)
    requires r.rounds.AllTracked(limit) && limit >= 1 && key.trade != "" && key in r.rounds.exhausted
    requires m !in r.passed && !r.inflight && r.rounds.seen <= at
    requires r.rounds.Log(key)[|r.rounds.Log(key)| - 1] > 0.0
    ensures var (log, n) := (r.rounds.Log(key), RaceRun(r, [Retry(at), Check(m), Enqueue(m, at)], key, limit));
            n.rounds.Log(key) == if at >= log[|log| - 1] + 45.0 then log + [at] else log
  {
    r.rounds.ReopensAfterCooldown(key, at, limit);
    ThreeOfRace(r, Retry(at), Check(m), Enqueue(m, at), key, limit);
    hide RaceRun, Rounds.AllTracked, Rounds.CooledDown;
  }

  lemma TwoOfRace(r: Race, a: RaceStep, b: RaceStep, key: Key, limit: nat)
    ensures RaceRun(r, [a, b], key, limit) == RaceNext(RaceNext(r, a, key, limit), b, key, limit)
  {
    hide RaceNext;
    assert [a, b][..1] == [a] && [a][..0] == [];
    assert RaceRun(r, [a], key, limit) == RaceNext(r, a, key, limit);
  }

  lemma ThreeOfRace(r: Race, a: RaceStep, b: RaceStep, c: RaceStep, key: Key, limit: nat)
    ensures RaceRun(r, [a, b, c], key, limit)
            == RaceNext(RaceNext(RaceNext(r, a, key, limit), b, key, limit), c, key, limit)
  {
    hide RaceNext;
    TwoOfRace(r, a, b, key, limit);
    assert [a, b, c][..2] == [a, b];
  }

  lemma FourOfRace(r: Race, a: RaceStep, b: RaceStep, c: RaceStep, d: RaceStep, key: Key, limit: nat)
    ensures RaceRun(r, [a, b, c, d], key, limit)
            == RaceNext(RaceNext(RaceNext(RaceNext(r, a, key, limit), b, key, limit), c, key, limit), d, key, limit)
  {
    hide RaceNext;
    ThreeOfRace(r, a, b, c, key, limit);
    assert [a, b, c, d][..3] == [a, b, c];
  }

  lemma FiveSteps(r: Race, a: RaceStep, b: RaceStep, c: RaceStep, d: RaceStep, e: RaceStep, key: Key, limit: nat)
    ensures RaceRun(r, [a, b, c, d, e], key, limit)
            == RaceNext(RaceNext(RaceNext(RaceNext(RaceNext(r, a, key, limit), b, key, limit), c, key, limit),
                                 d, key, limit), e, key, limit)
  {
    hide RaceNext;
    FourOfRace(r, a, b, c, d, key, limit);
    assert [a, b, c, d, e][..4] == [a, b, c, d];
  }

  /** And it happens: from a clean desk, `limit` + 1 enqueues at one instant. */
  lemma {:induction false} OverrunIsReachable(key: Key, limit: nat, now: real)
    requires limit >= 1 && key.trade != ""
    ensures var r := Race(NotedTimes(key, now, limit, limit - 1), {}, false);
            var overrun := RaceRun(r, [Check(0), Check(1), Enqueue(0, now), Done, Enqueue(1, now)], key, limit);
            && r.rounds.AllTracked(limit)
            && |overrun.rounds.Log(key)| == limit + 1 && !Spread(overrun.rounds.Log(key), limit)
            && forall i | 0 <= i <= limit :: overrun.rounds.Log(key)[i] == now
  {
    NotedTimesFacts(key, now, limit, limit - 1);
    var r := Race(NotedTimes(key, now, limit, limit - 1), {}, false);
    StaleCheckOverruns(r, key, limit, now, now);
  }

  /** `n` serial enqueues of one key at one instant. */
  function NotedTimes(key: Key, now: real, limit: nat, n: nat): Rounds {
    if n == 0 then Rounds(map[], {}, map[], map[], now) else NotedTimes(key, now, limit, n - 1).Noted(key, now, limit)
  }

  lemma {:induction false} NotedTimesFacts(key: Key, now: real, limit: nat, n: nat)
    requires n < limit && key.trade != ""
    ensures var rounds := NotedTimes(key, now, limit, n);
            && rounds.AllTracked(limit) && rounds.seen == now && rounds.Count(key) == n
            && |rounds.Log(key)| == n && forall i | 0 <= i < n :: rounds.Log(key)[i] == now
  {
    if n == 0 {
      EmptyTracks(limit, now);
      hide Tracks;
    } else {
      NotedTimesFacts(key, now, limit, n - 1);
      var rounds := NotedTimes(key, now, limit, n - 1);
      OpenBelowLimit(rounds, key, limit);
      rounds.NotedTracked(key, now, limit);
      hide Rounds.AllTracked;
    }
  }

  lemma OpenBelowLimit(rounds: Rounds, key: Key, limit: nat)
    requires rounds.AllTracked(limit) && key.trade != ""
    ensures key in rounds.exhausted <==> rounds.Count(key) == limit
  {
    assert rounds.Tracked(key, limit);
  }

  lemma MinusOne<T>(m: map<Key, T>, gone: set<Key>, key: Key)
    ensures (m - gone) - {key} == m - (gone + {key})
  {}

  class CloseDesk {
    const limit: nat
    var attempts: map<Key, nat>
    var exhausted: set<Key>
    var exhaustedAt: map<Key, real>
    var inflight: set<Key>
    ghost var log: map<Key, seq<real>>
    ghost var seen: real

    ghost function State(): Rounds
      reads this
    {
      Rounds(attempts, exhausted, exhaustedAt, log, seen)
    }

    ghost predicate Valid()
      reads this
    {
      limit >= 1 && State().AllTracked(limit)
    }

    constructor (limit: int, ghost now: real)
      ensures Valid() && this.limit == (if limit < 1 then 1 else limit)
      ensures State() == Rounds(map[], {}, map[], map[], now) && inflight == {}
    {
      this.limit := if limit < 1 then 1 else limit;
      attempts, exhausted, exhaustedAt, inflight := map[], {}, map[], {};
      log, seen := map[], now;
    }

    method IsExhausted(key: Key) returns (yes: bool)
      ensures yes <==> key.trade != "" && key in exhausted
    {
      if key.trade == "" {
        return false;
      }
      yes := key in exhausted;
    }

    method NoteMarketCloseAttempt(key: Key, now: real) returns (count: nat)
      requires Valid() && seen <= now
      modifies this`attempts, this`exhausted, this`exhaustedAt, this`log, this`seen
      ensures State() == old(State()).Noted(key, now, limit)
      ensures Valid() <==> key.trade == "" || key !in old(exhausted)
      ensures count == State().Count(key)
    {
      hide Rounds.AllTracked;
      State().NotedTracked(key, now, limit);
      log, seen := log[key := State().Log(key) + [now]], now;
      count := (if key in attempts then attempts[key] else 0) + 1;
      attempts := attempts[key := count];
      if count >= limit {
        exhausted := exhausted + {key};
        exhaustedAt := exhaustedAt[key := now];
      }
    }

    /** Open for retry unless exhausted; an exhausted key opens a cooldown after its last attempt. */
    method ShouldRetry(key: Key, now: real) returns (retry: bool)
      requires Valid() && seen <= now
      modifies this`attempts, this`exhausted, this`exhaustedAt, this`seen
      ensures Valid()
      ensures var closed := key.trade != "" && key in old(exhausted);
              && (retry <==> closed ==> old(State()).CooledDown(key, now))
              && State() == if closed && retry then old(State()).Reopened(key, now) else old(State()).Later(now)
    {
      hide Rounds.AllTracked;
      State().LaterTracked(now, limit);
      var closed := IsExhausted(key);
      if !closed {
        seen := now;
        return true;
      }
      var started := if key in exhaustedAt then exhaustedAt[key] else 0.0;
      if started > 0.0 && now - started >= COOLDOWN {
        State().ReopenedTracked(key, now, limit);
        exhausted := exhausted - {key};
        attempts := attempts - {key};
        exhaustedAt := exhaustedAt - {key};
        seen := now;
        return true;
      }
      seen := now;
      return false;
    }

    method ClearMarketCloseAttempts(trade: string)
      requires Valid()
      modifies this`attempts, this`exhausted, this`exhaustedAt, this`log
      ensures Valid() && State() == old(State()).Cleared(trade)
    {
      State().ClearedTracked(trade, limit);
      hide Rounds.AllTracked;
      DropRounds(trade);
      log := map key | key in log && key.trade != trade :: log[key];
    }

    method DropRounds(trade: string)
      modifies this`attempts, this`exhausted, this`exhaustedAt
      ensures var gone := Of(old(attempts).Keys, trade);
              && attempts == old(attempts) - gone
              && exhausted == old(exhausted) - gone
              && exhaustedAt == old(exhaustedAt) - gone
    {
      var keys := attempts.Keys;
      ghost var gone: set<Key> := {};
      ghost var all := keys;
      assert Of({}, trade) == {};
      while |keys| > 0
        invariant keys <= all
        invariant gone == Of(all - keys, trade)
        invariant attempts == old(attempts) - gone
        invariant exhausted == old(exhausted) - gone
        invariant exhaustedAt == old(exhaustedAt) - gone
        decreases keys
      {
        var key :| key in keys;
        OneMore(all - keys, key, trade);
        assert all - keys + {key} == all - (keys - {key});
        keys := keys - {key};
        if key.trade == trade {
          MinusOne(old(attempts), gone, key);
          MinusOne(old(exhaustedAt), gone, key);
          attempts := attempts - {key};
          exhausted := exhausted - {key};
          exhaustedAt := exhaustedAt - {key};
          gone := gone + {key};
        }
      }
      assert all - keys == all;
    }

    /** A full close. It is queued, counted and registered unless the key is exhausted, the same close
        is already in flight, or the exit claim is not to be had. */
    method ClosePosition(key: Key, now: real, claimed: bool) returns (queued: bool)
      requires Valid() && seen <= now
      modifies this
      ensures Valid()
      ensures queued <==> !(key.trade != "" && key in old(exhausted)) && key !in old(inflight) && claimed
      ensures State() == if queued then old(State()).Noted(key, now, limit) else old(State()).Later(now)
      ensures inflight == if queued then old(inflight) + {key} else old(inflight)
    {
      hide Rounds.AllTracked;
      var closed := IsExhausted(key);
      if closed || key in inflight || !claimed {
        State().LaterTracked(now, limit);
        seen := now;
        return false;
      }
      inflight := inflight + {key};
      var _ := NoteMarketCloseAttempt(key, now);
      return true;
    }

    method Discard(key: Key)
      modifies this`inflight
      ensures inflight == old(inflight) - {key}
    {
      inflight := inflight - {key};
    }

    /** Whatever the calls before: any time window shorter than the cooldown holds at most the allowed
        number of enqueues per trade and reason since the last clear. */
    lemma EveryWindowWithinLimit(key: Key, first: nat, last: nat)
      requires Valid() && key.trade != ""
      requires first <= last < |State().Log(key)|
      requires State().Log(key)[last] - State().Log(key)[first] < 45.0
      ensures last - first + 1 <= limit
    {
      assert State().Tracked(key, limit);
      SpreadBoundsWindow(State().Log(key), limit, first, last);
    }
  }
}
