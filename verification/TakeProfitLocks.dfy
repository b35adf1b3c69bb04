/** The lock that is to keep a take-profit level from being sold twice. Monitor and close worker read and
    write the trade's row at separate steps, each writing back the whole copy it read, and both
    interleave at every one of them, with other processes at the claim file. */
module TakeProfitLocks {
  import opened Basics
  import opened ExitClaims
  import opened TakeProfit
  import Flight = ExitFlight

  datatype Fill = Fill(level: Level, quantity: real)

  /** How far the worker is with the task it runs. */
  datatype Stage = Taken | Started | Executed | Booked | Reread | Settled

  datatype Worker = Idle | Working(task: nat, level: Option<Level>, copy: set<Level>, stage: Stage)

  /** Where the monitor is in its tick, with the copy of the locks it read. */
  datatype Monitor =
    | Resting
    | Read(reason: string, copy: set<Level>)
    | Locked(reason: string, copy: set<Level>)   // the lock is written, the close not yet admitted
    | Refused(reason: string, copy: set<Level>)  // not admitted, the lock still written
    | Trailing(copy: set<Level>)                 // about to write its trailing state

  /** `flags` are the stored locks; every admitted task carries the copy its tick wrote, and `others` are
      copies that further writers of the row's metadata hold. */
  datatype World = World(
    flight: Flight.World, flags: set<Level>, copies: map<string, set<Level>>,
    monitor: Monitor, worker: Worker, others: map<nat, set<Level>>, filled: seq<Fill>, position: real,
    closed: bool)

  function ReasonOf(level: Level): string {
    match level case TP1 => "TP1" case TP2 => "TP2" case TP3 => "TP3_FULL_CLOSE"
  }

  function LevelOf(reason: string): Option<Level> {
    if reason == "TP1" then Some(TP1) else if reason == "TP2" then Some(TP2)
    else if reason == "TP3_FULL_CLOSE" then Some(TP3) else None
  }

  datatype Step =
    | TickRead(reason: string)       // the monitor reads the row and decides to close
    | TickLock                       // it writes the level's lock
    | TickCheck(resolvable: bool)    // it looks for a close in flight or an active claim
    | TickAdmit                      // it claims, registers and queues
    | TickRollback                   // it writes the lock back
    | TrailRead
    | TrailWrite                     // a tick that only trails writes the metadata it read
    | OtherRead(writer: nat)         // another thread or process reads the metadata
    | OtherWrite(writer: nat)        // and writes it back whole
    | Elsewhere(step: Flight.Step)   // time, or another process at the claim file
    | Resize(position: real)         // an add, or a fill elsewhere
    | Start(task: nat)               // the worker takes a task
    | Load                           // it reads the row
    | Execute(quantity: real)        // the exchange fills the close
    | Book                           // it writes its copy of the metadata back
    | MarkClosed                     // a full close marks the trade closed
    | FinishRead                     // the finalisation reads the row again
    | FinishWrite(done: bool)        // and writes it, once or twice
    | FoundFlat                      // nothing left to close: the trade is marked closed
    | Fail                           // nothing was executed: the lock is rolled back
    | RaiseAfterFill                 // a helper raises after the fill: the lock is rolled back
    | GiveUp
    | Discard
    | Crash

  function With(copy: set<Level>, reason: string): set<Level> {
    if LevelOf(reason).Some? then copy + {LevelOf(reason).value} else copy
  }

  function Without(copy: set<Level>, level: Option<Level>): set<Level> {
    if level.Some? then copy - {level.value} else copy
  }

  predicate At(w: World, stage: Stage) {
    w.worker.Working? && w.worker.stage == stage && w.worker.task < |w.flight.tasks|
  }

  /** Executed, and the worker not yet done with it. */
  predicate AfterFill(w: World) { At(w, Executed) || At(w, Booked) || At(w, Reread) }

  /** What the worker's rollback writes: the copy its tick wrote, without the level. */
  function RolledBack(w: World): set<Level>
    requires w.worker.Working? && w.worker.task < |w.flight.tasks|
  {
    var reason := w.flight.tasks[w.worker.task].reason;
    if w.worker.level.None? || reason !in w.copies then w.flags else Without(w.copies[reason], w.worker.level)
  }

  /** A level asks for its part, or for all that is left when it has none; so do the last level and a
      full close. No close exceeds the position. */
  predicate MayExecute(w: World, quantity: real, p: Partition) {
    && 0.0 < quantity <= w.position
    && (w.worker.Working? && w.worker.level.Some? && !w.worker.level.value.TP3? && p.Of(w.worker.level.value) > 0.0 ==>
          quantity <= p.Of(w.worker.level.value))
  }

  function Next(w: World, s: Step, p: Partition): World {
    match s
    case TickRead(reason) =>
      if !w.monitor.Resting? || w.closed then w
      else if LevelOf(reason).Some? && LevelOf(reason).value in w.flags then w
      else w.(monitor := Read(reason, w.flags))
    case TickLock =>
      if !w.monitor.Read? then w
      else
        var copy := With(w.monitor.copy, w.monitor.reason);
        w.(flags := if LevelOf(w.monitor.reason).Some? then copy else w.flags,
           monitor := Locked(w.monitor.reason, copy))
    case TickCheck(resolvable) =>
      if !w.monitor.Locked? || w.flight.checked.Some? then w
      else
        var flight := if resolvable then Flight.Next(w.flight, Flight.Check(w.monitor.reason)) else w.flight;
        if flight.checked.Some? then w.(flight := flight)
        else w.(monitor := Refused(w.monitor.reason, w.monitor.copy))
    case TickAdmit =>
      if !w.monitor.Locked? || w.flight.checked.None? then w
      else
        var flight := Flight.Next(w.flight, Flight.Admit);
        if |flight.tasks| > |w.flight.tasks| then
          w.(flight := flight, copies := w.copies[w.monitor.reason := w.monitor.copy], monitor := Resting)
        else w.(flight := flight, monitor := Refused(w.monitor.reason, w.monitor.copy))
    case TickRollback =>
      if !w.monitor.Refused? then w
      else
        var level := LevelOf(w.monitor.reason);
        w.(flags := if level.Some? then Without(w.monitor.copy, level) else w.flags, monitor := Resting)
    case TrailRead => if w.monitor.Resting? && !w.closed then w.(monitor := Trailing(w.flags)) else w
    case TrailWrite => if w.monitor.Trailing? then w.(flags := w.monitor.copy, monitor := Resting) else w
    case OtherRead(k) => w.(others := w.others[k := w.flags])
    case OtherWrite(k) => if k in w.others then w.(flags := w.others[k], others := w.others - {k}) else w
    case Elsewhere(step) =>
      if step.Wait? || step.OtherClaim? || step.OtherRelease? then w.(flight := Flight.Next(w.flight, step)) else w
    case Resize(position) => w.(position := position)
    case Start(i) =>
      var flight := Flight.Next(w.flight, Flight.Start(i));
      if !w.worker.Idle? || flight == w.flight || i >= |w.flight.tasks| then w
      else w.(flight := flight, worker := Working(i, LevelOf(w.flight.tasks[i].reason), {}, Taken))
    case Load =>
      if At(w, Taken) then w.(worker := w.worker.(copy := w.flags, stage := if w.closed then Settled else Started))
      else w
    case Execute(quantity) =>
      if !At(w, Started) || !MayExecute(w, quantity, p) then w
      else
        w.(worker := w.worker.(stage := Executed), position := w.position - quantity,
           filled := if w.worker.level.None? then w.filled else w.filled + [Fill(w.worker.level.value, quantity)])
    case Book =>
      if At(w, Executed) then w.(worker := w.worker.(stage := Booked), flags := w.worker.copy) else w
    case MarkClosed =>
      if At(w, Booked) then w.(worker := w.worker.(stage := Settled), closed := true) else w
    case FinishRead =>
      if !At(w, Booked) || w.worker.level.None? then w
      else w.(worker := w.worker.(copy := w.flags, stage := if w.closed then Settled else Reread))
    case FinishWrite(done) =>
      if !At(w, Reread) then w
      else w.(flags := w.worker.copy, closed := w.closed || w.worker.level == Some(TP3),
              worker := if done then w.worker.(stage := Settled) else w.worker)
    case FoundFlat =>
      if At(w, Started) then w.(worker := w.worker.(stage := Settled), closed := true) else w
    case Fail =>
      if At(w, Started) then w.(worker := w.worker.(stage := Settled), flags := RolledBack(w)) else w
    case RaiseAfterFill =>
      if AfterFill(w) then w.(worker := w.worker.(stage := Settled), flags := RolledBack(w)) else w
    case GiveUp =>
      if At(w, Settled) then w.(flight := Flight.Next(w.flight, Flight.GiveUp(w.worker.task))) else w
    case Discard =>
      if At(w, Settled) && w.flight.tasks[w.worker.task].phase.Released? && w.flight.checked.None? then
        w.(flight := Flight.Next(w.flight, Flight.Discard(w.worker.task)), worker := Idle)
      else w
    case Crash => w.(flight := Flight.Next(w.flight, Flight.Crash), monitor := Resting, worker := Idle)
  }

  function Run(w: World, steps: seq<Step>, p: Partition): World {
    if steps == [] then w else Next(Run(w, steps[..|steps| - 1], p), steps[|steps| - 1], p)
  }

  predicate Executes(w: World, level: Level) {
    exists i | 0 <= i < |w.filled| :: w.filled[i].level == level
  }

  /** A close of the level is queued, or running and not yet executed. */
  ghost predicate Pending(w: World, level: Level) {
    exists i :: 0 <= i < |w.flight.tasks| && PendingAt(w, level, i)
  }

  ghost predicate PendingAt(w: World, level: Level, i: nat)
    requires i < |w.flight.tasks|
  {
    && LevelOf(w.flight.tasks[i].reason) == Some(level)
    && (w.flight.tasks[i].phase.Queued?
        || (w.flight.tasks[i].phase.Running? && w.worker.Working? && w.worker.task == i
            && (w.worker.stage.Taken? || w.worker.stage.Started?)))
  }

  /** The monitor has this level's lock written for a close that is not admitted. */
  predicate Locking(w: World, level: Level) {
    (w.monitor.Locked? || w.monitor.Refused?) && LevelOf(w.monitor.reason) == Some(level)
  }

  ghost predicate Busy(w: World, level: Level) {
    Pending(w, level) || Executes(w, level) || Locking(w, level)
  }

  ghost predicate OnceEach(filled: seq<Fill>) {
    forall i, j | 0 <= i < j < |filled| :: filled[i].level != filled[j].level
  }

  /** A level that has a part sold at most that. */
  ghost predicate WithinParts(filled: seq<Fill>, p: Partition) {
    forall i | 0 <= i < |filled| ::
      filled[i].level.TP3? || p.Of(filled[i].level) <= 0.0 || filled[i].quantity <= p.Of(filled[i].level)
  }

  /** The worker's position agrees with the task it runs. */
  ghost predicate WorkerOk(w: World) {
    && (forall i | 0 <= i < |w.flight.tasks| ::
          w.flight.tasks[i].phase.Queued? || (w.worker.Working? && w.worker.task == i))
    && (w.worker.Working? ==>
          && w.worker.task < |w.flight.tasks|
          && !w.flight.tasks[w.worker.task].phase.Queued?
          && w.worker.level == LevelOf(w.flight.tasks[w.worker.task].reason)
          && (w.flight.tasks[w.worker.task].phase.Released? ==> w.worker.stage.Settled?)
          && (AfterFill(w) && w.worker.level.Some? ==> Executes(w, w.worker.level.value)))
  }

  /** The monitor works on a level that is neither pending nor done, and it alone holds the lock on the
      in-flight set. */
  ghost predicate MonitorOk(w: World) {
    && (w.flight.checked.Some? ==> w.monitor.Locked? && w.flight.checked.value == w.monitor.reason)
    && (w.monitor.Read? || w.monitor.Locked? || w.monitor.Refused? ==>
          forall level | LevelOf(w.monitor.reason) == Some(level) :: !Pending(w, level) && !Executes(w, level))
  }

  /** Until the trade is closed a level's flag is set exactly when its close is being attempted, pending
      or done. */
  ghost predicate Exact(w: World) {
    w.closed || forall level :: level in w.flags <==> Busy(w, level)
  }

  ghost predicate Inv(w: World, p: Partition) {
    && Flight.Inv(w.flight) && WorkerOk(w) && MonitorOk(w) && Exact(w)
    && (forall level :: !(Pending(w, level) && Executes(w, level)))
    && OnceEach(w.filled) && WithinParts(w.filled, p)
  }

  // ---- Whose copy is fresh ----

  /** The step writes the row's locks. */
  predicate Writes(w: World, s: Step) {
    match s
    case TickLock => w.monitor.Read? && LevelOf(w.monitor.reason).Some?
    case TickRollback => w.monitor.Refused? && LevelOf(w.monitor.reason).Some?
    case TrailWrite => w.monitor.Trailing?
    case OtherWrite(k) => k in w.others
    case Book => At(w, Executed)
    case FinishWrite(done) => At(w, Reread)
    case Fail => At(w, Started)
    case RaiseAfterFill => AfterFill(w)
    case _ => false
  }

  /** What the row should show after it: what it shows now, with the writer's own change and no other. */
  function Intended(w: World, s: Step): set<Level>
    requires Writes(w, s)
  {
    match s
    case TickLock => With(w.flags, w.monitor.reason)
    case TickRollback => Without(w.flags, LevelOf(w.monitor.reason))
    case Fail => Without(w.flags, w.worker.level)
    case _ => w.flags
  }

  /** What it writes: the writer's copy with that change. */
  function Written(w: World, s: Step): set<Level>
    requires Writes(w, s)
  {
    match s
    case TickLock => With(w.monitor.copy, w.monitor.reason)
    case TickRollback => Without(w.monitor.copy, LevelOf(w.monitor.reason))
    case TrailWrite => w.monitor.copy
    case OtherWrite(k) => w.others[k]
    case Book => w.worker.copy
    case FinishWrite(done) => w.worker.copy
    case Fail => RolledBack(w)
    case RaiseAfterFill => RolledBack(w)
    case _ => w.flags
  }

  /** A write is harmless if the writer's copy is fresh, a crash if no level is pending or being
      attempted; once the trade is closed, everything is. */
  ghost predicate Harmless(w: World, s: Step) {
    || w.closed || (s.FinishWrite? && At(w, Reread) && w.worker.level == Some(TP3))
    || ((Writes(w, s) ==> Written(w, s) == Intended(w, s))
        && (s.Crash? ==> forall level :: !Pending(w, level) && !Locking(w, level)))
  }

  /** The row is exact after a write exactly when what it shows is what is busy. */
  lemma ExactIff(next: World, intended: set<Level>)
    requires !next.closed && forall level :: level in intended <==> Busy(next, level)
    ensures Exact(next) <==> next.flags == intended
  {
    hide Busy;
    if Exact(next) {
      forall level ensures level in next.flags <==> level in intended {}
    }
  }

  // ---- What every step keeps ----

  /** Nothing about tasks, the worker's progress or fills has changed. */
  lemma SameWork(w: World, next: World)
    requires next.flight.tasks == w.flight.tasks && next.filled == w.filled
    requires next.worker == w.worker
             || (w.worker.Working? && next.worker.Working? && next.worker.task == w.worker.task
                 && ((next.worker.stage.Taken? || next.worker.stage.Started?)
                     <==> (w.worker.stage.Taken? || w.worker.stage.Started?)))
    ensures forall level :: Pending(next, level) <==> Pending(w, level)
    ensures forall level :: Executes(next, level) <==> Executes(w, level)
  {
    forall level ensures Pending(next, level) <==> Pending(w, level) {
      assert forall i: nat | i < |w.flight.tasks| :: PendingAt(next, level, i) == PendingAt(w, level, i);
    }
  }

  lemma {:induction false} ReadsKeepInv(w: World, s: Step, p: Partition)
    requires Inv(w, p) && (s.TickRead? || s.TrailRead? || s.OtherRead? || s.Resize?)
    ensures Inv(Next(w, s, p), p)
  {
    hide OnceEach, WithinParts, Flight.Inv;
    SameWork(w, Next(w, s, p));
    hide Pending, Executes;
  }

  lemma {:induction false} RowWriteKeepsInvIff(w: World, s: Step, p: Partition)
    requires Inv(w, p) && (s.TickLock? || s.TickRollback? || s.TrailWrite? || s.OtherWrite?)
    ensures Inv(Next(w, s, p), p) <==> Harmless(w, s)
  {
    hide OnceEach, WithinParts, Flight.Inv;
    var next := Next(w, s, p);
    SameWork(w, next);
    hide Pending, Executes;
    if Writes(w, s) && !w.closed {
      forall level ensures level in Intended(w, s) <==> Busy(next, level) {}
      ExactIff(next, Intended(w, s));
    }
  }

  lemma CheckKeepsInv(w: World, resolvable: bool, p: Partition)
    requires Inv(w, p) && Flight.Timely(w.flight)
    ensures Inv(Next(w, TickCheck(resolvable), p), p)
  {
    hide OnceEach, WithinParts;
    var next := Next(w, TickCheck(resolvable), p);
    if next != w {
      Flight.NextKeepsInv(w.flight, Flight.Check(w.monitor.reason));
      hide Flight.Inv;
      SameWork(w, next);
      hide Pending, Executes;
    }
  }

  /** What the admission does to the flight. */
  lemma AdmissionFacts(flight: Flight.World)
    requires Flight.Inv(flight) && flight.checked.Some? && Flight.Timely(flight)
    ensures var next := Flight.Next(flight, Flight.Admit);
            && Flight.Inv(next) && next.checked.None?
            && (|next.tasks| <= |flight.tasks| ==> next.tasks == flight.tasks)
            && (|next.tasks| > |flight.tasks| ==>
                  next.tasks == flight.tasks + [Flight.Task(flight.checked.value, flight.now, Flight.Queued)])
  {
    Flight.NextKeepsInv(flight, Flight.Admit);
  }

  lemma AdmitKeepsInv(w: World, p: Partition)
    requires Inv(w, p) && Flight.Timely(w.flight)
    ensures Inv(Next(w, TickAdmit, p), p)
  {
    hide OnceEach, WithinParts;
    var next := Next(w, TickAdmit, p);
    if next != w {
      AdmissionFacts(w.flight);
      hide Flight.Inv;
      var n := |w.flight.tasks|;
      if |next.flight.tasks| > n {
        forall level ensures Pending(next, level) <==> Pending(w, level) || LevelOf(w.monitor.reason) == Some(level) {
          AdmittedIsPending(w, next, level);
        }
        assert forall level :: Executes(next, level) <==> Executes(w, level);
      } else {
        SameWork(w, next);
      }
      hide Pending, Executes;
    }
  }

  lemma AdmittedIsPending(w: World, next: World, level: Level)
    requires |next.flight.tasks| == |w.flight.tasks| + 1 && next.worker == w.worker
    requires forall i | 0 <= i < |w.flight.tasks| :: next.flight.tasks[i] == w.flight.tasks[i]
    requires next.flight.tasks[|w.flight.tasks|].phase.Queued?
    ensures Pending(next, level) <==>
            Pending(w, level) || LevelOf(next.flight.tasks[|w.flight.tasks|].reason) == Some(level)
  {
    var n := |w.flight.tasks|;
    assert forall i: nat | i < n :: PendingAt(next, level, i) == PendingAt(w, level, i);
    if Pending(w, level) {
      var i: nat :| i < n && PendingAt(w, level, i);
      assert PendingAt(next, level, i);
    }
    assert PendingAt(next, level, n) <==> LevelOf(next.flight.tasks[n].reason) == Some(level);
  }

  lemma ElsewhereKeepsInv(w: World, step: Flight.Step, p: Partition)
    requires Inv(w, p) && Flight.Timely(w.flight)
    ensures Inv(Next(w, Elsewhere(step), p), p)
  {
    hide OnceEach, WithinParts;
    Flight.NextKeepsInv(w.flight, step);
    hide Flight.Inv;
    var next := Next(w, Elsewhere(step), p);
    if next != w {
      SameWork(w, next);
      hide Pending, Executes;
    }
  }

  lemma StartKeepsInv(w: World, i: nat, p: Partition)
    requires Inv(w, p) && Flight.Timely(w.flight)
    ensures Inv(Next(w, Start(i), p), p)
  {
    hide OnceEach, WithinParts;
    Flight.NextKeepsInv(w.flight, Flight.Start(i));
    hide Flight.Inv;
    var next := Next(w, Start(i), p);
    if next != w {
      forall level ensures Pending(next, level) <==> Pending(w, level) {
        assert forall k: nat | k < |w.flight.tasks| :: PendingAt(next, level, k) == PendingAt(w, level, k);
      }
      assert forall level :: Executes(next, level) <==> Executes(w, level);
      assert WorkerOk(next);
      hide Pending, Executes, WorkerOk;
    }
  }

  /** The worker's task is the only live one; its level is pending until it is executed or settled. */
  lemma OnlyWorkerLives(w: World, p: Partition, next: World)
    requires Inv(w, p) && w.worker.Working? && !w.worker.stage.Settled?
    requires next.flight == w.flight && next.worker.Working? && next.worker.task == w.worker.task
    requires !next.worker.stage.Taken? && !next.worker.stage.Started?
    ensures forall level ::
              Pending(w, level) <==> (w.worker.stage.Taken? || w.worker.stage.Started?) && Some(level) == w.worker.level
    ensures forall level :: !Pending(next, level)
  {
    var k := w.worker.task;
    assert w.flight.tasks[k].Live();
    assert forall i | 0 <= i < |w.flight.tasks| && i != k :: !w.flight.tasks[i].Live();
    hide Flight.Inv;
    if w.worker.stage.Taken? || w.worker.stage.Started? {
      if w.worker.level.Some? {
        assert PendingAt(w, w.worker.level.value, k);
      }
    }
  }

  lemma ExecutesMore(w: World, next: World, fill: Fill)
    requires next.filled == w.filled + [fill]
    ensures forall level :: Executes(next, level) <==> Executes(w, level) || level == fill.level
  {
    assert next.filled[|w.filled|] == fill;
    forall level ensures Executes(next, level) <==> Executes(w, level) || level == fill.level {
      if Executes(w, level) {
        var i :| 0 <= i < |w.filled| && w.filled[i].level == level;
        assert next.filled[i].level == level;
      }
    }
  }

  lemma ExecuteKeepsInv(w: World, quantity: real, p: Partition)
    requires Inv(w, p)
    ensures Inv(Next(w, Execute(quantity), p), p)
  {
    var next := Next(w, Execute(quantity), p);
    if next != w {
      OnlyWorkerLives(w, p, next);
      hide Flight.Inv;
      if w.worker.level.Some? {
        ExecutesMore(w, next, Fill(w.worker.level.value, quantity));
      } else {
        assert forall level :: Executes(next, level) <==> Executes(w, level);
      }
      hide Pending;
    }
  }

  lemma {:induction false} WorkerMovesKeepInv(w: World, s: Step, p: Partition)
    requires Inv(w, p) && (s.Load? || s.MarkClosed? || s.FinishRead? || s.FoundFlat?)
    ensures Inv(Next(w, s, p), p)
  {
    hide OnceEach, WithinParts;
    var next := Next(w, s, p);
    if next != w {
      if s.Load? && next.worker.stage.Started? {
        SameWork(w, next);
      } else {
        OnlyWorkerLives(w, p, next);
        ExecutesFilled(w, next);
      }
      hide Flight.Inv, Pending, Executes;
    }
  }

  lemma {:induction false} WorkerWritesKeepInvIff(w: World, s: Step, p: Partition)
    requires Inv(w, p) && (s.Book? || s.FinishWrite? || s.Fail? || s.RaiseAfterFill?)
    ensures Inv(Next(w, s, p), p) <==> Harmless(w, s)
  {
    hide OnceEach, WithinParts;
    var next := Next(w, s, p);
    if next != w {
      OnlyWorkerLives(w, p, next);
      ExecutesFilled(w, next);
      hide Flight.Inv, Pending, Executes;
      if !next.closed {
        forall level ensures level in Intended(w, s) <==> Busy(next, level) {}
        ExactIff(next, Intended(w, s));
      }
    }
  }

  lemma GiveUpKeepsInv(w: World, p: Partition)
    requires Inv(w, p) && Flight.Timely(w.flight)
    ensures Inv(Next(w, GiveUp, p), p)
  {
    hide OnceEach, WithinParts;
    var next := Next(w, GiveUp, p);
    if next != w {
      Flight.NextKeepsInv(w.flight, Flight.GiveUp(w.worker.task));
      hide Flight.Inv;
      forall level ensures Pending(next, level) <==> Pending(w, level) {
        assert forall i: nat | i < |w.flight.tasks| :: PendingAt(next, level, i) == PendingAt(w, level, i);
      }
      assert forall level :: Executes(next, level) <==> Executes(w, level);
      assert WorkerOk(next);
      hide Pending, Executes, WorkerOk;
    }
  }

  /** Where a task stood before another one was removed. */
  function Before(i: nat, removed: nat): nat { if i >= removed then i + 1 else i }

  lemma TasksAfterDiscard(w: World, p: Partition)
    requires Next(w, Discard, p) != w
    ensures var next := Next(w, Discard, p);
            && w.worker.Working? && next.worker.Idle? && |next.flight.tasks| == |w.flight.tasks| - 1
            && w.worker.task < |w.flight.tasks| && w.flight.tasks[w.worker.task].phase.Released?
            && next.flight.checked == w.flight.checked == None
            && next == w.(flight := next.flight, worker := Idle)
            && forall i: nat | i < |next.flight.tasks| ::
                 next.flight.tasks[i] == w.flight.tasks[Before(i, w.worker.task)]
  {}

  lemma DiscardKeepsPending(w: World, p: Partition, level: Level)
    requires WorkerOk(w)
    ensures Pending(Next(w, Discard, p), level) <==> Pending(w, level)
  {
    var next := Next(w, Discard, p);
    if next != w {
      TasksAfterDiscard(w, p);
      hide Next;
      var k := w.worker.task;
      if Pending(w, level) {
        var i: nat :| i < |w.flight.tasks| && PendingAt(w, level, i);
        assert PendingAt(next, level, if i > k then i - 1 else i);
      }
      if Pending(next, level) {
        var i: nat :| i < |next.flight.tasks| && PendingAt(next, level, i);
        assert PendingAt(w, level, Before(i, k));
      }
    }
  }

  lemma DiscardKeepsInv(w: World, p: Partition)
    requires Inv(w, p) && Flight.Timely(w.flight)
    ensures Inv(Next(w, Discard, p), p)
  {
    hide OnceEach, WithinParts, Pending, Executes;
    var next := Next(w, Discard, p);
    if next != w {
      Flight.NextKeepsInv(w.flight, Flight.Discard(w.worker.task));
      hide Flight.Inv;
      forall level ensures Pending(next, level) <==> Pending(w, level) {
        DiscardKeepsPending(w, p, level);
      }
      ExecutesFilled(w, next);
      TasksAfterDiscard(w, p);
      hide Next;
      assert WorkerOk(next);
    }
  }

  lemma ExecutesFilled(w: World, w': World)
    requires w.filled == w'.filled
    ensures forall level :: Executes(w', level) <==> Executes(w, level)
  {}

  /** A crash keeps the row exact if and only if no level's close was pending or being attempted, or the
      trade is closed. */
  lemma {:induction false} CrashKeepsInvIff(w: World, p: Partition)
    requires Inv(w, p)
    ensures Inv(Next(w, Crash, p), p) <==> Harmless(w, Crash)
  {
    hide OnceEach, WithinParts;
    var next := Next(w, Crash, p);
    assert Flight.Inv(next.flight) && WorkerOk(next);
    hide Flight.Inv, WorkerOk;
    forall level ensures !Pending(next, level) && (Executes(next, level) <==> Executes(w, level)) {}
    hide Pending, Executes, Next;
    if !w.closed {
      forall level | Pending(w, level) || Locking(w, level)
        ensures level in next.flags && !Busy(next, level)
      {
        assert Busy(w, level);
      }
    }
  }

  /** The row stays exact along every step of every thread if and only if the step is harmless: what is
      written back was read since the row last changed, and nothing crashes in between. */
  lemma NextKeepsInvIff(w: World, s: Step, p: Partition)
    requires Inv(w, p) && Flight.Timely(w.flight)
    ensures Inv(Next(w, s, p), p) <==> Harmless(w, s)
  {
    hide Inv, Next;
    match s
    case TickCheck(resolvable) => CheckKeepsInv(w, resolvable, p);
    case TickAdmit => AdmitKeepsInv(w, p);
    case Elsewhere(step) => ElsewhereKeepsInv(w, step, p);
    case Start(i) => StartKeepsInv(w, i, p);
    case Execute(quantity) => ExecuteKeepsInv(w, quantity, p);
    case GiveUp => GiveUpKeepsInv(w, p);
    case Discard => DiscardKeepsInv(w, p);
    case Crash => CrashKeepsInvIff(w, p);
    case TickRead(reason) => ReadsKeepInv(w, s, p);
    case TickLock => RowWriteKeepsInvIff(w, s, p);
    case TickRollback => RowWriteKeepsInvIff(w, s, p);
    case TrailRead => ReadsKeepInv(w, s, p);
    case TrailWrite => RowWriteKeepsInvIff(w, s, p);
    case OtherRead(k) => ReadsKeepInv(w, s, p);
    case OtherWrite(k) => RowWriteKeepsInvIff(w, s, p);
    case Resize(position) => ReadsKeepInv(w, s, p);
    case Book => WorkerWritesKeepInvIff(w, s, p);
    case FinishWrite(done) => WorkerWritesKeepInvIff(w, s, p);
    case Fail => WorkerWritesKeepInvIff(w, s, p);
    case RaiseAfterFill => WorkerWritesKeepInvIff(w, s, p);
    case _ => WorkerMovesKeepInv(w, s, p);
  }

  /** A freshly entered trade. */
  ghost predicate Fresh(w: World, p: Partition) {
    && Flight.Quiet(w.flight) && w.flags == {} && w.monitor.Resting? && w.worker.Idle? && w.filled == []
    && w.position == p.original && !w.closed
  }

  /** Every step is harmless, and every close is done within its claim's TTL. */
  ghost predicate SoundRun(w: World, steps: seq<Step>, p: Partition) {
    && (forall n | 0 <= n < |steps| :: Harmless(Run(w, steps[..n], p), steps[n]))
    && (forall n | 0 <= n <= |steps| :: Flight.Timely(Run(w, steps[..n], p).flight))
  }

  lemma {:induction false} RunKeepsInv(w: World, steps: seq<Step>, p: Partition)
    requires Fresh(w, p) && SoundRun(w, steps, p)
    ensures Inv(Run(w, steps, p), p)
  {
    if steps == [] {
      FreshKeepsInv(w, p);
      hide Inv;
    } else {
      var n := |steps| - 1;
      SoundPrefix(w, steps, p);
      RunKeepsInv(w, steps[..n], p);
      hide Inv, Next, SoundRun, Fresh, Harmless, Flight.Timely;
      NextKeepsInvIff(Run(w, steps[..n], p), steps[n], p);
    }
  }

  lemma FreshKeepsInv(w: World, p: Partition)
    requires Fresh(w, p)
    ensures Inv(w, p)
  {}

  lemma SoundPrefix(w: World, steps: seq<Step>, p: Partition)
    requires SoundRun(w, steps, p) && steps != []
    ensures var n := |steps| - 1;
            && SoundRun(w, steps[..n], p)
            && Flight.Timely(Run(w, steps[..n], p).flight)
            && Harmless(Run(w, steps[..n], p), steps[n])
  {
    hide Run, Harmless, Flight.Timely;
    var n := |steps| - 1;
    assert forall k | 0 <= k <= n :: steps[..n][..k] == steps[..k];
    assert forall i | 0 <= i < n :: steps[..n][i] == steps[i];
  }

  /** Between ticks, until the trade is closed, a level's flag is set exactly when its close is pending or
      done; it is never both. */
  lemma FlagsAreExact(w: World, steps: seq<Step>, p: Partition, level: Level)
    requires Fresh(w, p) && SoundRun(w, steps, p)
    ensures var now := Run(w, steps, p);
            && (!now.closed && (now.monitor.Resting? || now.monitor.Trailing?) ==>
                  (level in now.flags <==> Pending(now, level) || Executes(now, level)))
            && !(Pending(now, level) && Executes(now, level))
  {
    RunKeepsInv(w, steps, p);
    hide Run;
  }

  /** A finished level never sends again. */
  lemma NeverSoldAgain(w: World, steps: seq<Step>, p: Partition)
    requires Fresh(w, p) && SoundRun(w, steps, p)
    ensures OnceEach(Run(w, steps, p).filled)
  {
    RunKeepsInv(w, steps, p);
  }

  // ---- The end of a trade ----

  /** The worker of a closed trade never gets to execute: it finds the trade closed when it loads it. */
  ghost predicate DoneSelling(w: World) {
    w.closed && !(w.worker.Working? && w.worker.stage.Started?)
  }

  lemma ClosedStep(w: World, s: Step, p: Partition)
    requires DoneSelling(w)
    ensures DoneSelling(Next(w, s, p)) && Next(w, s, p).filled == w.filled
  {
    hide MayExecute, RolledBack, With, Without, Flight.Next;
  }

  /** Once the trade is closed and no close is under way, no run ever sells another level or opens the trade
      again, whatever is written, queued or crashes. */
  lemma {:induction false} ClosedNeverSells(w: World, steps: seq<Step>, p: Partition)
    requires DoneSelling(w)
    ensures DoneSelling(Run(w, steps, p)) && Run(w, steps, p).filled == w.filled
  {
    hide Next;
    if steps != [] {
      ClosedNeverSells(w, steps[..|steps| - 1], p);
      ClosedStep(Run(w, steps[..|steps| - 1], p), steps[|steps| - 1], p);
    }
  }

  /** What closes it: of the levels the last one, when its fill is finalised; */
  lemma LastLevelCloses(w: World, p: Partition, done: bool)
    requires !w.closed && At(w, Executed) && w.worker.level.Some?
    ensures Next(Next(Next(w, Book, p), FinishRead, p), FinishWrite(done), p).closed <==> w.worker.level == Some(TP3)
  {
    var booked := Next(w, Book, p);
    assert booked == w.(worker := w.worker.(stage := Booked), flags := w.worker.copy);
    var reread := Next(booked, FinishRead, p);
    assert reread == booked.(worker := booked.worker.(copy := booked.flags, stage := Reread));
  }

  /** any other full close once it is booked, and a position found flat. */
  lemma FullCloseCloses(w: World, p: Partition)
    ensures At(w, Executed) && w.worker.level.None? ==> Next(Next(w, Book, p), MarkClosed, p).closed
    ensures At(w, Started) ==> Next(w, FoundFlat, p).closed
  {
    hide RolledBack, With, Without, Flight.Next;
  }
}
