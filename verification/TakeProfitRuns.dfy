/** What whole runs of the take-profit locks sell, and the runs in which a stale copy loses a lock. */
module TakeProfitRuns {
  import opened Basics
  import Claims = ExitClaims
  import opened TakeProfit
  import opened TakeProfitLocks
  import Flight = ExitFlight

  // ---- What is sold ----

  function Sold(filled: seq<Fill>, level: Level): real {
    if filled == [] then 0.0
    else
      var last := filled[|filled| - 1];
      Sold(filled[..|filled| - 1], level) + if last.level == level then last.quantity else 0.0
  }

  lemma {:induction false} SoldOnce(filled: seq<Fill>, level: Level, p: Partition)
    requires OnceEach(filled) && WithinParts(filled, p) && level != TP3 && p.Of(level) > 0.0
    ensures Sold(filled, level) <= p.Of(level)
    ensures (forall i | 0 <= i < |filled| :: filled[i].level != level) ==> Sold(filled, level) == 0.0
  {
    if filled != [] {
      SoldOnce(filled[..|filled| - 1], level, p);
    }
  }

  /** In every run the first two levels sell at most their parts. */
  ghost predicate SalesWithinParts(p: Partition) {
    forall w: World, steps: seq<Step> | Fresh(w, p) && SoundRun(w, steps, p) ::
      Sold(Run(w, steps, p).filled, TP1) <= p.tp1 && Sold(Run(w, steps, p).filled, TP2) <= p.tp2
  }

  /** They do exactly if the entry is large enough for its first part to be a lot: below that the parts
      are 0, and a level without a part sells the whole position. */
  lemma {:induction false} SalesWithinPartsIff(total: real, step: real)
    requires step > 0.0 && total >= step
    ensures PartialQuantities(total, step).Ok?
    ensures SalesWithinParts(PartialQuantities(total, step).value) <==> total * 0.30 >= step
  {
    PartsAddUp(total, step);
    PartIsPositiveIff(total, step);
    var p := PartialQuantities(total, step).value;
    if total * 0.30 >= step {
      forall w: World, steps: seq<Step> | Fresh(w, p) && SoundRun(w, steps, p)
        ensures Sold(Run(w, steps, p).filled, TP1) <= p.tp1 && Sold(Run(w, steps, p).filled, TP2) <= p.tp2
      {
        RunKeepsInv(w, steps, p);
        SoldOnce(Run(w, steps, p).filled, TP1, p);
        SoldOnce(Run(w, steps, p).filled, TP2, p);
      }
    } else {
      ZeroPartSellsAll(Entered(p), p);
    }
  }

  /** A fresh trade whose exit nobody has claimed. */
  function Entered(p: Partition): World {
    World(Flight.World(0.0, 1.0, Claims.Absent, {}, None, []), {}, map[], Resting, Idle, map[], [], p.original, false)
  }

  lemma {:induction false} Replay(w: World, first: seq<Step>, second: seq<Step>, p: Partition)
    ensures Run(w, first + second, p) == Run(Run(w, first, p), second, p)
  {
    hide Next;
    if second == [] {
      assert first + second == first;
    } else {
      var n := |second| - 1;
      Replay(w, first, second[..n], p);
      assert (first + second)[..|first| + n] == first + second[..n];
    }
  }

  lemma RunOf1(w: World, a: Step, p: Partition)
    ensures Run(w, [a], p) == Next(w, a, p)
  {
    hide Next;
    assert [a][..0] == [];
  }

  lemma RunOf2(w: World, a: Step, b: Step, p: Partition)
    ensures Run(w, [a, b], p) == Next(Next(w, a, p), b, p)
  {
    hide Next;
    RunOf1(w, a, p);
    assert [a, b][..1] == [a];
  }

  lemma RunOf3(w: World, a: Step, b: Step, c: Step, p: Partition)
    ensures Run(w, [a, b, c], p) == Next(Next(Next(w, a, p), b, p), c, p)
  {
    hide Next;
    RunOf2(w, a, b, p);
    assert [a, b, c][..2] == [a, b];
  }

  lemma RunOf4(w: World, a: Step, b: Step, c: Step, d: Step, p: Partition)
    ensures Run(w, [a, b, c, d], p) == Next(Next(Next(Next(w, a, p), b, p), c, p), d, p)
  {
    hide Next;
    RunOf3(w, a, b, c, p);
    assert [a, b, c, d][..3] == [a, b, c];
  }

  /** Nothing is in flight, nothing claimed, and the level's lock is not set. */
  predicate Open(w: World, level: Level) {
    && w.monitor.Resting? && w.worker.Idle? && !w.closed && level !in w.flags
    && w.flight.tasks == [] && w.flight.checked.None? && w.flight.file.Absent?
    && ReasonOf(level) !in w.flight.inflight
  }

  /** The flight with just this level's close in it. */
  function FlightWith(flight: Flight.World, level: Level, phase: Flight.Phase): Flight.World {
    flight.(file := Claims.Held(Flight.MAIN, flight.now), inflight := flight.inflight + {ReasonOf(level)},
            tasks := [Flight.Task(ReasonOf(level), flight.now, phase)])
  }

  /** One undisturbed tick queues the level. */
  lemma LevelQueues(w: World, level: Level, p: Partition)
    requires Open(w, level)
    ensures var flags := w.flags + {level};
            Run(w, [TickRead(ReasonOf(level)), TickLock, TickCheck(true), TickAdmit], p)
            == w.(flight := FlightWith(w.flight, level, Flight.Queued), flags := flags,
                  copies := w.copies[ReasonOf(level) := flags])
  {
    var reason, flags := ReasonOf(level), w.flags + {level};
    assert LevelOf(reason) == Some(level);
    RunOf4(w, TickRead(reason), TickLock, TickCheck(true), TickAdmit, p);
    var w1 := w.(monitor := Read(reason, w.flags));
    var w2 := w.(flags := flags, monitor := Locked(reason, flags));
    var w3 := w2.(flight := w.flight.(checked := Some(reason)));
    assert Next(w, TickRead(reason), p) == w1;
    assert Next(w1, TickLock, p) == w2;
    assert Next(w2, TickCheck(true), p) == w3;
  }

  /** The level's queued close is taken and started. */
  lemma QueuedStarts(w: World, level: Level, p: Partition)
    requires w.worker.Idle? && !w.closed
    requires w.flight.tasks == [Flight.Task(ReasonOf(level), w.flight.now, Flight.Queued)]
    ensures Run(w, [Start(0), Load], p)
            == w.(flight := w.flight.(tasks := [Flight.Task(ReasonOf(level), w.flight.now, Flight.Running)]),
                  worker := Working(0, Some(level), w.flags, Started))
  {
    assert LevelOf(ReasonOf(level)) == Some(level);
    RunOf2(w, Start(0), Load, p);
    assert w.flight.tasks[0 := w.flight.tasks[0].(phase := Flight.Running)]
        == [Flight.Task(ReasonOf(level), w.flight.now, Flight.Running)];
    assert Flight.Next(w.flight, Flight.Start(0)).tasks[0].phase.Running?;
  }

  lemma StartedSells(w: World, level: Level, quantity: real, p: Partition)
    requires At(w, Started) && w.worker.level == Some(level) && 0.0 < quantity <= w.position
    requires level.TP3? || p.Of(level) <= 0.0 || quantity <= p.Of(level)
    ensures Next(w, Execute(quantity), p)
            == w.(worker := w.worker.(stage := Executed), position := w.position - quantity,
                  filled := w.filled + [Fill(level, quantity)])
  {}

  /** A level that is open gets sold, whatever was sold before. */
  lemma OpenLevelSells(w: World, level: Level, quantity: real, p: Partition)
    requires Open(w, level) && 0.0 < quantity <= w.position
    requires level.TP3? || p.Of(level) <= 0.0 || quantity <= p.Of(level)
    ensures Run(w, [TickRead(ReasonOf(level)), TickLock, TickCheck(true), TickAdmit] + [Start(0), Load]
                   + [Execute(quantity)], p).filled == w.filled + [Fill(level, quantity)]
  {
    hide Next;
    var tick := [TickRead(ReasonOf(level)), TickLock, TickCheck(true), TickAdmit];
    Replay(w, tick + [Start(0), Load], [Execute(quantity)], p);
    Replay(w, tick, [Start(0), Load], p);
    LevelQueues(w, level, p);
    QueuedStarts(Run(w, tick, p), level, p);
    var started := Run(w, tick + [Start(0), Load], p);
    RunOf1(started, Execute(quantity), p);
    hide Run;
    StartedSells(started, level, quantity, p);
  }

  lemma RunOfMore(w: World, steps: seq<Step>, s: Step, p: Partition)
    ensures Run(w, steps + [s], p) == Next(Run(w, steps, p), s, p)
  {
    hide Next;
    assert (steps + [s])[..|steps|] == steps;
  }

  lemma SoundSnoc(w: World, steps: seq<Step>, s: Step, p: Partition)
    requires SoundRun(w, steps, p) && Harmless(Run(w, steps, p), s)
    requires Flight.Timely(Next(Run(w, steps, p), s, p).flight)
    ensures SoundRun(w, steps + [s], p) && Run(w, steps + [s], p) == Next(Run(w, steps, p), s, p)
  {
    hide Harmless, Flight.Timely, Next, Run;
    var more := steps + [s];
    assert more[..|steps|] == steps && more[..|more|] == more && steps[..|steps|] == steps;
    RunOfMore(w, steps, s, p);
    forall n | 0 <= n < |more| ensures Harmless(Run(w, more[..n], p), more[n]) {
      assert n < |steps| ==> more[..n] == steps[..n];
    }
    forall n | 0 <= n <= |more| ensures Flight.Timely(Run(w, more[..n], p).flight) {
      assert n <= |steps| ==> more[..n] == steps[..n];
    }
  }

  /** A step that leaves the flight and the row's locks alone goes on a sound run. */
  lemma SoundQuietly(w: World, steps: seq<Step>, s: Step, p: Partition)
    requires SoundRun(w, steps, p) && !Writes(Run(w, steps, p), s) && !s.Crash?
    requires Next(Run(w, steps, p), s, p).flight == Run(w, steps, p).flight
    ensures SoundRun(w, steps + [s], p) && Run(w, steps + [s], p) == Next(Run(w, steps, p), s, p)
  {
    hide Next, Run;
    assert steps[..|steps|] == steps;
    assert Flight.Timely(Run(w, steps[..|steps|], p).flight);
    hide Flight.Timely, SoundRun;
    OnlyWritesHarm(Run(w, steps, p), s);
    SoundSnoc(w, steps, s, p);
  }

  lemma OnlyWritesHarm(w: World, s: Step)
    requires !Writes(w, s) && !s.Crash?
    ensures Harmless(w, s)
  {}

  const FIRST_TICK := [TickRead("TP1"), TickLock, TickCheck(true), TickAdmit]

  /** The first level's close gets queued, and then started, in a sound run from every fresh trade with
      an unclaimed exit. */
  lemma {:induction false} FirstLevelQueues(w: World, p: Partition)
    requires Fresh(w, p) && w.flight.file.Absent? && w.flight.ttl > 0.0
    ensures SoundRun(w, FIRST_TICK, p) && Inv(Run(w, FIRST_TICK, p), p)
    ensures Run(w, FIRST_TICK, p)
            == w.(flight := FlightWith(w.flight, TP1, Flight.Queued), flags := {TP1},
                  copies := w.copies["TP1" := {TP1}])
  {
    assert Open(w, TP1) && w.flags + {TP1} == {TP1};
    LevelQueues(w, TP1, p);
    FirstLevelLocks(w, p);
    var steps := [TickRead("TP1"), TickLock];
    var w2 := Run(w, steps, p);
    var w3 := w2.(flight := w.flight.(checked := Some("TP1")));
    assert Next(w2, TickCheck(true), p) == w3;
    OnlyWritesHarm(w2, TickCheck(true));
    SoundSnoc(w, steps, TickCheck(true), p);
    var w4 := w.(flight := FlightWith(w.flight, TP1, Flight.Queued), flags := {TP1},
                 copies := w.copies["TP1" := {TP1}]);
    assert steps + [TickCheck(true)] + [TickAdmit] == FIRST_TICK;
    RunOf4(w, TickRead("TP1"), TickLock, TickCheck(true), TickAdmit, p);
    RunOf2(w, TickRead("TP1"), TickLock, p);
    hide Next, Run, SoundRun;
    OnlyWritesHarm(w3, TickAdmit);
    SoundSnoc(w, steps + [TickCheck(true)], TickAdmit, p);
    RunKeepsInv(w, FIRST_TICK, p);
  }

  lemma {:induction false} FirstLevelLocks(w: World, p: Partition)
    requires Fresh(w, p)
    ensures SoundRun(w, [TickRead("TP1"), TickLock], p)
    ensures Run(w, [TickRead("TP1"), TickLock], p) == w.(flags := {TP1}, monitor := Locked("TP1", {TP1}))
  {
    assert {} + {TP1} == {TP1};
    assert SoundRun(w, [], p) && Run(w, [], p) == w;
    SoundSnoc(w, [], TickRead("TP1"), p);
    assert [] + [TickRead("TP1")] == [TickRead("TP1")];
    var w1 := w.(monitor := Read("TP1", {}));
    assert Next(w, TickRead("TP1"), p) == w1;
    SoundSnoc(w, [TickRead("TP1")], TickLock, p);
    assert [TickRead("TP1")] + [TickLock] == [TickRead("TP1"), TickLock];
    hide SoundRun;
  }

  lemma {:induction false} FirstLevelStarts(w: World, p: Partition)
    requires Fresh(w, p) && w.flight.file.Absent? && w.flight.ttl > 0.0
    ensures var steps := FIRST_TICK + [Start(0)] + [Load];
            && SoundRun(w, steps, p) && Inv(Run(w, steps, p), p)
            && Run(w, steps, p)
               == w.(flight := FlightWith(w.flight, TP1, Flight.Running), flags := {TP1},
                     copies := w.copies["TP1" := {TP1}], worker := Working(0, Some(TP1), {TP1}, Started))
  {
    FirstLevelQueues(w, p);
    var queued := Run(w, FIRST_TICK, p);
    QueuedStarts(queued, TP1, p);
    RunOf2(queued, Start(0), Load, p);
    hide Inv, Run, SoundRun;
    OnlyWritesHarm(queued, Start(0));
    SoundSnoc(w, FIRST_TICK, Start(0), p);
    var taken := Next(queued, Start(0), p);
    assert taken.flight.tasks == Next(taken, Load, p).flight.tasks;
    OnlyWritesHarm(taken, Load);
    SoundSnoc(w, FIRST_TICK + [Start(0)], Load, p);
    RunKeepsInv(w, FIRST_TICK + [Start(0)] + [Load], p);
  }

  /** The first level is started and filled, by its part or, if it has none, by anything up to the whole
      position. */
  lemma {:induction false} FirstLevelFills(w: World, quantity: real, p: Partition)
    requires Fresh(w, p) && w.flight.file.Absent? && w.flight.ttl > 0.0
    requires 0.0 < quantity <= w.position && (p.tp1 <= 0.0 || quantity <= p.tp1)
    ensures var steps := FIRST_TICK + [Start(0)] + [Load] + [Execute(quantity)];
            && SoundRun(w, steps, p) && Inv(Run(w, steps, p), p)
            && Run(w, steps, p)
               == w.(flight := FlightWith(w.flight, TP1, Flight.Running), flags := {TP1},
                     copies := w.copies["TP1" := {TP1}], worker := Working(0, Some(TP1), {TP1}, Executed),
                     position := w.position - quantity, filled := [Fill(TP1, quantity)])
  {
    var steps := FIRST_TICK + [Start(0)] + [Load];
    FirstLevelStarts(w, p);
    hide Inv, Run, SoundRun, FlightWith;
    assert [] + [Fill(TP1, quantity)] == [Fill(TP1, quantity)];
    FillSoundly(w, steps, quantity, p);
    RunKeepsInv(w, steps + [Execute(quantity)], p);
  }

  lemma {:induction false} FillSoundly(w: World, steps: seq<Step>, quantity: real, p: Partition)
    requires SoundRun(w, steps, p)
    requires var started := Run(w, steps, p);
             && At(started, Started) && started.worker.level == Some(TP1)
             && 0.0 < quantity <= started.position && (p.tp1 <= 0.0 || quantity <= p.tp1)
    ensures var started := Run(w, steps, p);
            && SoundRun(w, steps + [Execute(quantity)], p)
            && Run(w, steps + [Execute(quantity)], p)
               == started.(worker := started.worker.(stage := Executed), position := started.position - quantity,
                           filled := started.filled + [Fill(TP1, quantity)])
  {
    hide Run, SoundRun;
    StartedSells(Run(w, steps, p), TP1, quantity, p);
    assert !Writes(Run(w, steps, p), Execute(quantity));
    hide Next, Writes;
    SoundQuietly(w, steps, Execute(quantity), p);
  }

  /** A level without a part sells the whole position. */
  lemma {:induction false} ZeroPartSellsAll(w: World, p: Partition)
    requires Fresh(w, p) && w.flight.file.Absent? && w.flight.ttl > 0.0
    requires p.tp1 <= 0.0 < p.original
    ensures var steps := FIRST_TICK + [Start(0)] + [Load] + [Execute(p.original)];
            && SoundRun(w, steps, p)
            && Run(w, steps, p).position == 0.0
            && Sold(Run(w, steps, p).filled, TP1) == p.original
  {
    FirstLevelFills(w, p.original, p);
    hide Inv, Run, SoundRun;
    assert [Fill(TP1, p.original)][..0] == [];
  }

  // ---- Stale copies ----

  /** Stale rollback: while one level's close runs, a tick locks another level and is refused, and in
      between the close fails. The tick's rollback writes the failed level's lock back: from every such
      state, without a crash, the lock stays although nothing is pending or done, and no tick tries the
      level again. */
  lemma {:induction false} StaleRollbackStrands(w: World, level: Level, p: Partition)
    requires Inv(w, p) && Flight.Timely(w.flight) && !w.closed && w.monitor.Resting? && At(w, Started)
    requires w.worker.level.Some? && level !in w.flags
    ensures var stranded := w.worker.level.value;
            var n := Run(w, [TickRead(ReasonOf(level)), TickLock, Fail, TickCheck(true)]
                            + [TickRollback, GiveUp, Discard], p);
            && stranded in n.flags && !Busy(n, stranded) && !n.closed && n.worker.Idle?
            && Next(n, TickRead(ReasonOf(stranded)), p) == n
  {
    var stranded, reason := w.worker.level.value, ReasonOf(level);
    assert LevelOf(reason) == Some(level) && LevelOf(ReasonOf(stranded)) == Some(stranded);
    OwnTaskIsPending(w, p);
    var first := [TickRead(reason), TickLock, Fail, TickCheck(true)];
    Replay(w, first, [TickRollback, GiveUp, Discard], p);
    RunOf4(w, TickRead(reason), TickLock, Fail, TickCheck(true), p);
    RefusedWhileRunning(w, level, p);
    var w4 := Run(w, first, p);
    RunOf3(w4, TickRollback, GiveUp, Discard, p);
    RolledBackAndGone(w, w4, p);
    hide Run, Inv;
  }

  lemma OwnTaskIsPending(w: World, p: Partition)
    requires Inv(w, p) && At(w, Started) && w.worker.level.Some?
    ensures Pending(w, w.worker.level.value) && !Executes(w, w.worker.level.value)
    ensures !w.closed ==> w.worker.level.value in w.flags
    ensures w.flight.tasks[w.worker.task].phase.Running?
    ensures |w.flight.tasks| == 1 && w.worker.task == 0
    ensures w.flight.file == Claims.Held(Flight.MAIN, w.flight.tasks[w.worker.task].at)
    ensures w.monitor.Resting? ==> w.flight.checked.None?
  {
    assert PendingAt(w, w.worker.level.value, w.worker.task);
    assert w.flight.tasks[w.worker.task].Live();
    assert Busy(w, w.worker.level.value);
    var k := if w.worker.task == 0 then 1 else 0;
    assert k < |w.flight.tasks| ==> w.flight.tasks[k].Live();
  }

  lemma RefusedWhileRunning(w: World, level: Level, p: Partition)
    requires Inv(w, p) && Flight.Timely(w.flight) && !w.closed && w.monitor.Resting? && At(w, Started)
    requires w.worker.level.Some? && level !in w.flags
    ensures Next(Next(Next(Next(w, TickRead(ReasonOf(level)), p), TickLock, p), Fail, p), TickCheck(true), p)
            == w.(monitor := Refused(ReasonOf(level), w.flags + {level}),
                  worker := w.worker.(stage := Settled),
                  flags := RolledBack(w.(flags := w.flags + {level})))
  {
    OwnTaskIsPending(w, p);
    assert LevelOf(ReasonOf(level)) == Some(level);
    assert w.flight.tasks[w.worker.task].Live();
    assert Flight.Next(w.flight, Flight.Check(ReasonOf(level))) == w.flight;
    hide Inv, Flight.Timely;
  }

  lemma RolledBackAndGone(w: World, refused: World, p: Partition)
    requires Inv(w, p) && !w.closed && w.monitor.Resting? && At(w, Started) && w.worker.level.Some?
    requires refused.monitor.Refused? && LevelOf(refused.monitor.reason).Some?
    requires LevelOf(refused.monitor.reason).value !in w.flags
    requires refused.monitor.copy == w.flags + {LevelOf(refused.monitor.reason).value}
    requires refused == w.(monitor := refused.monitor, worker := w.worker.(stage := Settled), flags := refused.flags)
    ensures var n := Next(Next(Next(refused, TickRollback, p), GiveUp, p), Discard, p);
            && n.flags == w.flags && !Busy(n, w.worker.level.value) && !n.closed && n.worker.Idle?
            && n.monitor.Resting?
  {
    var stranded := w.worker.level.value;
    OwnTaskIsPending(w, p);
    var back := Next(refused, TickRollback, p);
    assert back == w.(worker := w.worker.(stage := Settled));
    SettledGone(w, back, p);
  }

  lemma SettledGone(w: World, back: World, p: Partition)
    requires Inv(w, p) && !w.closed && w.monitor.Resting? && At(w, Started) && w.worker.level.Some?
    requires back == w.(worker := w.worker.(stage := Settled))
    ensures var n := Next(Next(back, GiveUp, p), Discard, p);
            && n.flags == w.flags && !Busy(n, w.worker.level.value) && !n.closed && n.worker.Idle?
            && n.monitor.Resting?
  {
    var stranded := w.worker.level.value;
    OwnTaskIsPending(w, p);
    hide Inv;
    var gone := Next(Next(back, GiveUp, p), Discard, p);
    assert |gone.flight.tasks| == 0;
    assert !Pending(gone, stranded);
    assert Executes(gone, stranded) <==> Executes(w, stranded);
  }

  /** Only this level's close is in flight, and the worker has filled it. */
  ghost predicate FilledAlone(w: World, level: Level) {
    && AfterFill(w) && w.worker == Working(0, Some(level), w.worker.copy, w.worker.stage)
    && w.flight.tasks == [Flight.Task(ReasonOf(level), w.flight.tasks[0].at, Flight.Running)]
    && w.flight.file == Claims.Held(Flight.MAIN, w.flight.tasks[0].at) && w.flight.checked.None? && !w.closed
  }

  /** Done with it, the worker leaves the flight empty and the exit unclaimed. */
  lemma WorkerLeaves(w: World, level: Level, p: Partition)
    requires At(w, Settled) && w.worker.task == 0 && w.flight.checked.None?
    requires w.flight.tasks == [Flight.Task(ReasonOf(level), w.flight.tasks[0].at, Flight.Running)]
    requires w.flight.file == Claims.Held(Flight.MAIN, w.flight.tasks[0].at)
    ensures Next(Next(w, GiveUp, p), Discard, p)
            == w.(worker := Idle,
                  flight := w.flight.(file := Claims.Absent, tasks := [],
                                      inflight := w.flight.inflight - {ReasonOf(level)}))
  {
    var gone := Next(w, GiveUp, p);
    assert gone.flight.tasks == [Flight.Task(ReasonOf(level), w.flight.tasks[0].at, Flight.Released)];
    assert gone.flight.tasks[..0] + gone.flight.tasks[1..] == [];
  }

  /** A helper raises after the fill of a level: the lock is rolled back and the next tick sells the level
      once more. */
  lemma {:induction false} RaiseSellsAgain(w: World, level: Level, quantity: real, p: Partition)
    requires Inv(w, p) && FilledAlone(w, level) && w.monitor.Resting? && ReasonOf(level) in w.copies
    requires 0.0 < quantity <= w.position && (level.TP3? || p.Of(level) <= 0.0 || quantity <= p.Of(level))
    ensures var filled := Run(w, [RaiseAfterFill, GiveUp, Discard]
                                 + ([TickRead(ReasonOf(level)), TickLock, TickCheck(true), TickAdmit]
                                    + [Start(0), Load] + [Execute(quantity)]), p).filled;
            filled == w.filled + [Fill(level, quantity)] && !OnceEach(filled)
  {
    var again := [TickRead(ReasonOf(level)), TickLock, TickCheck(true), TickAdmit] + [Start(0), Load]
                 + [Execute(quantity)];
    Replay(w, [RaiseAfterFill, GiveUp, Discard], again, p);
    RunOf3(w, RaiseAfterFill, GiveUp, Discard, p);
    var raised := Next(w, RaiseAfterFill, p);
    assert raised.worker.stage.Settled? && level !in raised.flags;
    WorkerLeaves(raised, level, p);
    var n := Run(w, [RaiseAfterFill, GiveUp, Discard], p);
    assert Open(n, level);
    OpenLevelSells(n, level, quantity, p);
    assert Executes(w, level);
    SoldTwice(w, level, quantity);
    hide Inv, Run;
  }

  lemma SoldTwice(w: World, level: Level, quantity: real)
    requires Executes(w, level)
    ensures !OnceEach(w.filled + [Fill(level, quantity)])
  {
    var i :| 0 <= i < |w.filled| && w.filled[i].level == level;
    var more := w.filled + [Fill(level, quantity)];
    assert more[i].level == more[|w.filled|].level;
  }

  /** Stale book: while one level's filled close is being booked, a tick locks another level, and the
      worker writes its older copy over the lock before the level is admitted. The level is then queued
      without its lock, from every such state. */
  lemma {:induction false} StaleBookUnlocks(w: World, done: Level, level: Level, p: Partition)
    requires FilledAlone(w, done) && At(w, Executed) && w.monitor.Resting? && !done.TP3? && done != level
    requires level !in w.flags && level !in w.worker.copy && ReasonOf(level) !in w.flight.inflight
    ensures var n := Run(w, [TickRead(ReasonOf(level)), TickLock, Book, FinishRead]
                            + [FinishWrite(true), GiveUp, Discard] + [TickCheck(true), TickAdmit], p);
            QueuedUnlocked(n, level) && n.filled == w.filled && n.position == w.position
  {
    hide Next;
    var reason := ReasonOf(level);
    var first := [TickRead(reason), TickLock, Book, FinishRead];
    var second := [FinishWrite(true), GiveUp, Discard];
    Replay(w, first + second, [TickCheck(true), TickAdmit], p);
    Replay(w, first, second, p);
    LockOverwritten(w, done, level, p);
    var w4 := Run(w, first, p);
    ReplayedLeave(w4, done, p);
    AdmittedUnlocked(Run(w4, second, p), level, p);
    hide Run;
  }

  /** The level's close is queued, alone, and its lock is not set. */
  ghost predicate QueuedUnlocked(w: World, level: Level) {
    && w.flight.tasks == [Flight.Task(ReasonOf(level), w.flight.now, Flight.Queued)]
    && w.flight.file == Claims.Held(Flight.MAIN, w.flight.now) && w.flight.checked.None?
    && w.monitor.Resting? && w.worker.Idle? && !w.closed && level !in w.flags
  }

  lemma {:induction false} LockOverwritten(w: World, done: Level, level: Level, p: Partition)
    requires FilledAlone(w, done) && At(w, Executed) && w.monitor.Resting?
    requires level !in w.flags
    ensures Run(w, [TickRead(ReasonOf(level)), TickLock, Book, FinishRead], p)
            == w.(monitor := Locked(ReasonOf(level), w.flags + {level}), flags := w.worker.copy,
                  worker := Working(0, Some(done), w.worker.copy, Reread))
  {
    assert LevelOf(ReasonOf(level)) == Some(level);
    RunOf4(w, TickRead(ReasonOf(level)), TickLock, Book, FinishRead, p);
    hide Run;
  }

  /** A finalisation writes the same row again, and the worker leaves. */
  lemma {:induction false} ReplayedLeave(w: World, level: Level, p: Partition)
    requires FilledAlone(w, level) && At(w, Reread) && !level.TP3? && w.worker.copy == w.flags
    ensures Run(w, [FinishWrite(true), GiveUp, Discard], p)
            == w.(worker := Idle,
                  flight := w.flight.(file := Claims.Absent, tasks := [],
                                      inflight := w.flight.inflight - {ReasonOf(level)}))
  {
    RunOf3(w, FinishWrite(true), GiveUp, Discard, p);
    var settled := w.(worker := w.worker.(stage := Settled));
    assert Next(w, FinishWrite(true), p) == settled;
    WorkerLeaves(settled, level, p);
    hide Run, Next;
  }

  lemma {:induction false} AdmittedUnlocked(w: World, level: Level, p: Partition)
    requires w.monitor.Locked? && w.monitor.reason == ReasonOf(level) && w.worker.Idle? && !w.closed
    requires w.flight.file.Absent? && w.flight.tasks == [] && w.flight.checked.None?
    requires ReasonOf(level) !in w.flight.inflight && level !in w.flags
    ensures var n := Run(w, [TickCheck(true), TickAdmit], p);
            QueuedUnlocked(n, level) && n.filled == w.filled && n.position == w.position
  {
    var reason := ReasonOf(level);
    RunOf2(w, TickCheck(true), TickAdmit, p);
    hide Run;
    assert Next(w, TickCheck(true), p) == w.(flight := w.flight.(checked := Some(reason)));
    var task := Flight.Task(reason, w.flight.now, Flight.Queued);
    assert [] + [task] == [task];
  }

  /** A level queued without its lock is sold, and after that sold again by the next tick. */
  lemma {:induction false} UnlockedSellsTwice(w: World, level: Level, one: real, two: real, p: Partition)
    requires QueuedUnlocked(w, level) && !level.TP3?
    requires 0.0 < one && 0.0 < two && one + two <= w.position
    requires p.Of(level) <= 0.0 || (one <= p.Of(level) && two <= p.Of(level))
    ensures var filled := Run(w, [Start(0), Load] + [Execute(one), Book, FinishRead]
                                 + [FinishWrite(true), GiveUp, Discard]
                                 + ([TickRead(ReasonOf(level)), TickLock, TickCheck(true), TickAdmit]
                                    + [Start(0), Load] + [Execute(two)]), p).filled;
            filled == w.filled + [Fill(level, one)] + [Fill(level, two)] && !OnceEach(filled)
  {
    hide Next;
    var again := [TickRead(ReasonOf(level)), TickLock, TickCheck(true), TickAdmit] + [Start(0), Load]
                 + [Execute(two)];
    var second, third := [Execute(one), Book, FinishRead], [FinishWrite(true), GiveUp, Discard];
    Replay(w, [Start(0), Load] + second + third, again, p);
    Replay(w, [Start(0), Load] + second, third, p);
    Replay(w, [Start(0), Load], second, p);
    QueuedStarts(w, level, p);
    var w2 := Run(w, [Start(0), Load], p);
    FilledAndReread(w2, level, one, p);
    var w5 := Run(w2, second, p);
    ReplayedLeave(w5, level, p);
    var w8 := Run(w5, third, p);
    OpenLevelSells(w8, level, two, p);
    assert w8.filled[|w.filled|].level == level;
    SoldTwice(w8, level, two);
    hide Run;
  }

  lemma {:induction false} FilledAndReread(w: World, level: Level, quantity: real, p: Partition)
    requires At(w, Started) && w.worker.level == Some(level) && !w.closed && w.worker.copy == w.flags
    requires 0.0 < quantity <= w.position && (level.TP3? || p.Of(level) <= 0.0 || quantity <= p.Of(level))
    ensures Run(w, [Execute(quantity), Book, FinishRead], p)
            == w.(worker := w.worker.(stage := Reread), position := w.position - quantity,
                  filled := w.filled + [Fill(level, quantity)])
  {
    RunOf3(w, Execute(quantity), Book, FinishRead, p);
    StartedSells(w, level, quantity, p);
    hide Run;
  }

  /** A crash leaves the lock of a level whose close was pending or being attempted: nothing is pending
      or done, and no tick tries it again. */
  lemma {:induction false} CrashStrandsLock(w: World, p: Partition, level: Level)
    requires Inv(w, p) && !w.closed && (Pending(w, level) || Locking(w, level))
    ensures var after := Next(w, Crash, p);
            && level in after.flags && !Busy(after, level)
            && Next(after, TickRead(ReasonOf(level)), p) == after
  {
    assert Busy(w, level) && LevelOf(ReasonOf(level)) == Some(level);
    assert Executes(Next(w, Crash, p), level) <==> Executes(w, level);
    hide Flight.Inv;
  }

  /** The first level of every fresh trade can be lost like that. */
  lemma {:induction false} CrashIsReachable(w: World, p: Partition)
    requires Fresh(w, p) && w.flight.file.Absent? && w.flight.ttl > 0.0
    ensures SoundRun(w, FIRST_TICK, p)
    ensures var queued := Run(w, FIRST_TICK, p);
            Inv(queued, p) && !queued.closed && Pending(queued, TP1)
  {
    FirstLevelQueues(w, p);
    var queued := Run(w, FIRST_TICK, p);
    assert PendingAt(queued, TP1, 0);
    hide Inv;
  }

  /** And its fill can be followed by a raise, or by another level's tick before it is booked. */
  lemma {:induction false} FillIsReachable(w: World, quantity: real, p: Partition)
    requires Fresh(w, p) && w.flight.file.Absent? && w.flight.ttl > 0.0
    requires 0.0 < quantity <= w.position && (p.tp1 <= 0.0 || quantity <= p.tp1)
    ensures var steps := FIRST_TICK + [Start(0)] + [Load] + [Execute(quantity)];
            var n := Run(w, steps, p);
            && SoundRun(w, steps, p) && Inv(n, p)
            && FilledAlone(n, TP1) && At(n, Executed) && n.monitor.Resting? && "TP1" in n.copies
            && n.flags == n.worker.copy == {TP1} && n.flight.inflight == {"TP1"}
  {
    FirstLevelFills(w, quantity, p);
    hide Inv, Run, SoundRun;
  }

  // ---- Refused ticks and fresh copies ----

  /** A refused tick leaves no trace: a level that cannot be resolved, or whose exit another process has
      claimed, is locked and rolled back, and the row shows what it showed. */
  lemma {:induction false} RefusedTickLeavesNoTrace(w: World, level: Level, owner: string, p: Partition)
    requires Open(w, level) && w.flight.ttl > 0.0 && owner != Flight.MAIN
    ensures Run(w, [TickRead(ReasonOf(level)), TickLock, TickCheck(false), TickRollback], p) == w
    ensures var claimed := w.(flight := w.flight.(file := Claims.Held(owner, w.flight.now)));
            Run(w, [Elsewhere(Flight.OtherClaim(owner))]
                   + [TickRead(ReasonOf(level)), TickLock, TickCheck(true), TickRollback], p) == claimed
  {
    var claimed := w.(flight := w.flight.(file := Claims.Held(owner, w.flight.now)));
    var tick := [TickRead(ReasonOf(level)), TickLock, TickCheck(true), TickRollback];
    Replay(w, [Elsewhere(Flight.OtherClaim(owner))], tick, p);
    RunOf1(w, Elsewhere(Flight.OtherClaim(owner)), p);
    assert Next(w, Elsewhere(Flight.OtherClaim(owner)), p) == claimed;
    hide Run;
    RefusedAndRolledBack(w, level, false, p);
    RefusedAndRolledBack(claimed, level, true, p);
  }

  lemma {:induction false} RefusedAndRolledBack(w: World, level: Level, resolvable: bool, p: Partition)
    requires w.monitor.Resting? && !w.closed && level !in w.flags && w.flight.checked.None?
    requires resolvable ==> Claims.Fresh(w.flight.file, w.flight.now, w.flight.ttl)
    ensures Run(w, [TickRead(ReasonOf(level)), TickLock, TickCheck(resolvable), TickRollback], p) == w
  {
    var reason := ReasonOf(level);
    assert LevelOf(reason) == Some(level);
    RunOf4(w, TickRead(reason), TickLock, TickCheck(resolvable), TickRollback, p);
    var locked := w.(flags := w.flags + {level}, monitor := Locked(reason, w.flags + {level}));
    assert Next(Next(w, TickRead(reason), p), TickLock, p) == locked;
    assert Next(locked, TickCheck(resolvable), p) == locked.(monitor := Refused(reason, w.flags + {level}));
    assert w.flags + {level} - {level} == w.flags;
    hide Run;
  }

  /** Stale trailing: a tick that only trails reads the row, the running close fails and rolls its lock
      back, and the tick's write puts the lock of the failed level back. */
  lemma {:induction false} StaleTrailStrands(w: World, p: Partition)
    requires Inv(w, p) && !w.closed && w.monitor.Resting? && At(w, Started) && w.worker.level.Some?
    ensures var n := Run(w, [TrailRead, Fail, TrailWrite], p);
            && n.flags == w.flags && w.worker.level.value in n.flags && !Busy(n, w.worker.level.value)
    ensures Run(w, [TrailRead, TrailWrite], p) == w
  {
    var level := w.worker.level.value;
    OwnTaskIsPending(w, p);
    RunOf3(w, TrailRead, Fail, TrailWrite, p);
    RunOf2(w, TrailRead, TrailWrite, p);
    hide Inv, Run;
    var n := Next(Next(Next(w, TrailRead, p), Fail, p), TrailWrite, p);
    assert n == w.(worker := w.worker.(stage := Settled));
    assert |n.flight.tasks| == 1 && !Pending(n, level);
    assert Executes(n, level) <==> Executes(w, level);
  }

  /** Any other writer does the same harm: what it read before a tick's lock removes that lock. */
  lemma {:induction false} StaleOtherUnlocks(w: World, k: nat, level: Level, p: Partition)
    requires w.monitor.Resting? && !w.closed && level !in w.flags
    ensures var n := Run(w, [OtherRead(k), TickRead(ReasonOf(level)), TickLock, OtherWrite(k)], p);
            n.flags == w.flags && Locking(n, level) && !n.closed
  {
    assert LevelOf(ReasonOf(level)) == Some(level);
    RunOf4(w, OtherRead(k), TickRead(ReasonOf(level)), TickLock, OtherWrite(k), p);
    hide Run;
  }

  /** Stale failure: the rollback of a failed close writes the copy its own tick wrote, and so removes the
      lock that another level's tick has written since. */
  lemma {:induction false} StaleFailUnlocks(w: World, level: Level, p: Partition)
    requires Inv(w, p) && !w.closed && w.monitor.Resting? && At(w, Started) && w.worker.level.Some?
    requires var reason := w.flight.tasks[w.worker.task].reason;
             level !in w.flags && reason in w.copies && level !in w.copies[reason]
    ensures var n := Run(w, [TickRead(ReasonOf(level)), TickLock, Fail], p);
            level !in n.flags && Locking(n, level) && !n.closed
  {
    assert LevelOf(ReasonOf(level)) == Some(level);
    OwnTaskIsPending(w, p);
    RunOf3(w, TickRead(ReasonOf(level)), TickLock, Fail, p);
    hide Inv, Run;
  }

  /** A finalisation writes back what it has just read: undisturbed it leaves the locks alone, also those
      written since the booking. */
  lemma FinalisationKeepsLocks(w: World, done: bool, p: Partition)
    requires At(w, Booked) && w.worker.level.Some?
    ensures Run(w, [FinishRead, FinishWrite(done)], p).flags == w.flags
  {
    RunOf2(w, FinishRead, FinishWrite(done), p);
    hide Run;
  }

  // ---- The position ----

  function SoldInAll(filled: seq<Fill>): real {
    if filled == [] then 0.0 else SoldInAll(filled[..|filled| - 1]) + filled[|filled| - 1].quantity
  }

  /** What adds and fills elsewhere make of the position along a run. */
  ghost predicate ResizesTo(steps: seq<Step>, least: real, most: real) {
    forall i | 0 <= i < |steps| && steps[i].Resize? :: least <= steps[i].position <= most
  }

  /** No run, sound or not, sells more than there is: the position never goes below 0, and without an add or
      a fill elsewhere all that the levels sold fits what there was; after one the position is the new one. */
  lemma {:induction false} NeverOversold(w: World, steps: seq<Step>, most: real, p: Partition)
    requires 0.0 <= w.position <= most && ResizesTo(steps, 0.0, most)
    ensures var n := Run(w, steps, p);
            && 0.0 <= n.position <= most
            && ((forall i | 0 <= i < |steps| :: !steps[i].Resize?) ==>
                  n.position + SoldInAll(n.filled) <= w.position + SoldInAll(w.filled))
            && (steps != [] && steps[|steps| - 1].Resize? ==> n.position == steps[|steps| - 1].position)
  {
    hide Next;
    if steps != [] {
      var m := |steps| - 1;
      assert forall i | 0 <= i < m :: steps[..m][i] == steps[i];
      NeverOversold(w, steps[..m], most, p);
      SellsFromPosition(Run(w, steps[..m], p), steps[m], p);
    }
  }

  lemma SellsFromPosition(w: World, s: Step, p: Partition)
    requires w.position >= 0.0
    ensures var n := Next(w, s, p);
            if s.Resize? then n.position == s.position && n.filled == w.filled
            else 0.0 <= n.position <= w.position
                 && n.position + SoldInAll(n.filled) <= w.position + SoldInAll(w.filled)
  {
    hide RolledBack, With, Without, Flight.Next;
    var n := Next(w, s, p);
    if s.Execute? && n.filled != w.filled {
      assert n.filled[..|w.filled|] == w.filled;
    }
  }
}
