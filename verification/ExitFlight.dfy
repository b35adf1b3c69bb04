/** The exits of one trade: monitors that admit close tasks under a lock, one worker that runs them,
    the in-flight set, the claim file, and other processes that claim and release it. Every read and
    write of shared state is a step of its own. */
module ExitFlight {
  import opened Basics
  import opened ExitClaims

  const MAIN := "main"

  /** Executing until the worker gives up the claim; then only the in-flight entry is left. */
  datatype Phase = Queued | Running | Released

  datatype Task = Task(reason: string, at: real, phase: Phase) {
    predicate Live() { phase != Released }
  }

  datatype World = World(
    now: real, ttl: real, file: File,
    inflight: set<string>,
    checked: Option<string>,  // the reason a monitor holding the lock is about to claim for
    tasks: seq<Task>)

  datatype Step =
    | Wait(seconds: real)
    | Check(reason: string)     // lock taken, reason not in flight, no claim active
    | Admit                     // claim, register and queue; lock given up
    | Start(task: nat)          // the worker is free and takes the task
    | GiveUp(task: nat)         // the worker releases the claim
    | Discard(task: nat)        // and removes the reason from the in-flight set
    | OtherClaim(owner: string)
    | OtherRelease(owner: string)
    | Crash

  function Next(w: World, s: Step): World {
    match s
    case Wait(seconds) => if seconds >= 0.0 then w.(now := w.now + seconds) else w
    case Check(reason) =>
      if w.checked.None? && reason !in w.inflight && !Fresh(w.file, w.now, w.ttl)
      then w.(checked := Some(reason)) else w
    case Admit =>
      if w.checked.None? then w
      else
        var (file, ok) := Claim(w.file, MAIN, w.now, w.ttl);
        if !ok then w.(checked := None)
        else
          var reason := w.checked.value;
          w.(file := file, checked := None, inflight := w.inflight + {reason},
             tasks := w.tasks + [Task(reason, w.now, Queued)])
    case Start(i) =>
      if i < |w.tasks| && forall j | 0 <= j < |w.tasks| :: w.tasks[j].phase == Queued
      then w.(tasks := w.tasks[i := w.tasks[i].(phase := Running)]) else w
    case GiveUp(i) =>
      if i < |w.tasks| && w.tasks[i].phase == Running
      then w.(tasks := w.tasks[i := w.tasks[i].(phase := Released)], file := Release(w.file, Some(MAIN)))
      else w
    case Discard(i) =>
      if i < |w.tasks| && w.tasks[i].phase == Released && w.checked.None?
      then w.(tasks := w.tasks[..i] + w.tasks[i + 1..], inflight := w.inflight - {w.tasks[i].reason}) else w
    case OtherClaim(owner) =>
      if owner != MAIN then w.(file := Claim(w.file, owner, w.now, w.ttl).0) else w
    case OtherRelease(owner) =>
      if owner != MAIN && owner != "" then w.(file := Release(w.file, Some(owner))) else w
    case Crash => w.(inflight := {}, checked := None, tasks := [])
  }

  function Run(w: World, steps: seq<Step>): World {
    if steps == [] then w else Next(Run(w, steps[..|steps| - 1]), steps[|steps| - 1])
  }

  /** Every task that still runs is within its claim's TTL. */
  ghost predicate Timely(w: World) {
    forall i | 0 <= i < |w.tasks| && w.tasks[i].Live() :: w.now < w.tasks[i].at + w.ttl
  }

  ghost predicate EveryStateTimely(w: World, steps: seq<Step>) {
    forall n | 0 <= n <= |steps| :: Timely(Run(w, steps[..n]))
  }

  ghost predicate AtMostOneLive(tasks: seq<Task>) {
    forall i, j | 0 <= i < j < |tasks| :: !(tasks[i].Live() && tasks[j].Live())
  }

  ghost predicate Inv(w: World) {
    && AtMostOneLive(w.tasks)
    && (forall i | 0 <= i < |w.tasks| :: w.tasks[i].Live() ==> w.file == Held(MAIN, w.tasks[i].at))
    && (w.checked.Some? ==> forall i | 0 <= i < |w.tasks| :: !w.tasks[i].Live())
    && (w.checked.Some? ==> !Fresh(w.file, w.now, w.ttl) || (w.file.Held? && w.file.owner != MAIN))
    && (forall i | 0 <= i < |w.tasks| :: w.tasks[i].reason in w.inflight)
    && (forall i, j | 0 <= i < j < |w.tasks| :: w.tasks[i].reason != w.tasks[j].reason)
    && (w.checked.Some? ==> w.checked.value !in w.inflight)
  }

  lemma AdmitKeepsInv(w: World)
    requires Inv(w)
    ensures Inv(Next(w, Admit))
  {}

  lemma WorkerKeepsInv(w: World, s: Step)
    requires Inv(w) && (s.Start? || s.GiveUp?)
    ensures Inv(Next(w, s))
  {}

  lemma DiscardKeepsInv(w: World, i: nat)
    requires Inv(w)
    ensures Inv(Next(w, Discard(i)))
  {
    var next := Next(w, Discard(i));
    forall k | 0 <= k < |next.tasks|
      ensures next.tasks[k] == w.tasks[if next != w && k >= i then k + 1 else k] {}
  }

  lemma NextKeepsInv(w: World, s: Step)
    requires Inv(w) && Timely(w)
    ensures Inv(Next(w, s))
  {
    if s.Admit? {
      AdmitKeepsInv(w);
    } else if s.Discard? {
      DiscardKeepsInv(w, s.task);
    } else if s.Start? || s.GiveUp? {
      WorkerKeepsInv(w, s);
    }
  }

  ghost predicate Quiet(w: World) {
    w.tasks == [] && w.inflight == {} && w.checked.None?
  }

  lemma {:induction false} RunKeepsInv(w: World, steps: seq<Step>)
    requires Quiet(w) && EveryStateTimely(w, steps)
    ensures Inv(Run(w, steps))
  {
    if steps != [] {
      var n := |steps| - 1;
      assert forall k | 0 <= k <= n :: steps[..n][..k] == steps[..k];
      RunKeepsInv(w, steps[..n]);
      NextKeepsInv(Run(w, steps[..n]), steps[n]);
    }
  }

  /** A single exit in flight: if every task is done within the claim's TTL, then in every
      interleaving at most one close task of the trade is queued or running, whatever its reason, and
      meanwhile no other owner's claim succeeds. */
  lemma SingleExitInFlight(w: World, steps: seq<Step>)
    requires Quiet(w) && EveryStateTimely(w, steps)
    ensures var now := Run(w, steps);
            && AtMostOneLive(now.tasks)
            && ((exists i :: 0 <= i < |now.tasks| && now.tasks[i].Live()) ==>
                  forall owner | owner != MAIN :: !Claim(now.file, owner, now.now, now.ttl).1)
  {
    RunKeepsInv(w, steps);
    assert steps[..|steps|] == steps;
    assert Timely(Run(w, steps));
  }

  /** The TTL is exactly the limit: from every state with a task queued or running, another reason's
      close is admitted beside it after a delay if and only if the delay outlives the claim. */
  lemma OutlivedClaimAdmitsASecond(w: World, i: nat, delay: real, reason: string)
    requires Inv(w) && i < |w.tasks| && w.tasks[i].Live()
    requires w.checked.None? && reason !in w.inflight && delay >= 0.0
    ensures var n := Run(w, [Wait(delay), Check(reason), Admit]);
            && (!AtMostOneLive(n.tasks) <==> w.now + delay >= w.tasks[i].at + w.ttl)
            && n.tasks == w.tasks + if w.now + delay >= w.tasks[i].at + w.ttl
                                    then [Task(reason, w.now + delay, Queued)] else []
  {
    Unroll(w, [], Wait(delay));
    assert [] + [Wait(delay)] == [Wait(delay)];
    Unroll(w, [Wait(delay)], Check(reason));
    assert [Wait(delay)] + [Check(reason)] == [Wait(delay), Check(reason)];
    Unroll(w, [Wait(delay), Check(reason)], Admit);
    assert [Wait(delay), Check(reason)] + [Admit] == [Wait(delay), Check(reason), Admit];
    var n := Run(w, [Wait(delay), Check(reason), Admit]);
    if w.now + delay >= w.tasks[i].at + w.ttl {
      assert n.tasks[i].Live() && n.tasks[|w.tasks|].Live();
    }
  }

  /** Such a state is one admission away. */
  lemma AdmissionIsReachable(w: World, reason: string)
    requires Quiet(w) && w.file.Absent?
    ensures var n := Run(w, [Check(reason), Admit]);
            Inv(n) && n.tasks == [Task(reason, w.now, Queued)] && n.checked.None? && n.inflight == {reason}
  {
    Unroll(w, [], Check(reason));
    assert [] + [Check(reason)] == [Check(reason)];
    Unroll(w, [Check(reason)], Admit);
    assert [Check(reason)] + [Admit] == [Check(reason), Admit];
  }

  /** No two tasks that the worker has taken and not yet discarded. */
  ghost predicate OneTaken(tasks: seq<Task>) {
    forall i, j | 0 <= i < j < |tasks| :: tasks[i].phase.Queued? || tasks[j].phase.Queued?
  }

  lemma OneTakenStep(w: World, s: Step)
    requires OneTaken(w.tasks)
    ensures OneTaken(Next(w, s).tasks)
  {
    hide Claim, Release, Fresh;
    if s.Discard? {
      var next := Next(w, s);
      forall k | 0 <= k < |next.tasks|
        ensures next.tasks[k] == w.tasks[if next != w && k >= s.task then k + 1 else k] {}
    }
  }

  /** One worker: in every run, timely or not, it holds at most one task at a time. */
  lemma {:induction false} WorkerIsSerial(w: World, steps: seq<Step>)
    requires Quiet(w)
    ensures OneTaken(Run(w, steps).tasks)
  {
    hide Next;
    if steps != [] {
      WorkerIsSerial(w, steps[..|steps| - 1]);
      OneTakenStep(Run(w, steps[..|steps| - 1]), steps[|steps| - 1]);
    }
  }

  lemma ThreeSteps(w: World, a: Step, b: Step, c: Step)
    ensures Run(w, [a, b, c]) == Next(Next(Next(w, a), b), c)
  {
    Unroll(w, [], a);
    assert [] + [a] == [a];
    Unroll(w, [a], b);
    assert [a] + [b] == [a, b];
    Unroll(w, [a, b], c);
    assert [a, b] + [c] == [a, b, c];
    hide Next;
  }

  /** A close that is done leaves nothing behind: the claim is free, for anyone, and the same reason can be
      closed again. */
  lemma DoneCloseLeavesNothing(w: World, reason: string, at: real)
    requires w.tasks == [Task(reason, at, Queued)] && w.file == Held(MAIN, at)
    requires w.checked.None? && w.inflight == {reason}
    ensures Run(w, [Start(0), GiveUp(0), Discard(0)]) == w.(file := Absent, tasks := [], inflight := {})
  {
    ThreeSteps(w, Start(0), GiveUp(0), Discard(0));
    var started := Next(w, Start(0));
    assert started == w.(tasks := [Task(reason, at, Running)]);
    var released := Next(started, GiveUp(0));
    assert released == w.(tasks := [Task(reason, at, Released)], file := Absent);
    assert released.tasks[..0] + released.tasks[1..] == [];
    assert {reason} - {reason} == {};
  }

  /** Another process that has claimed the exit keeps every monitor out, exactly until it releases the
      claim or its TTL is over. */
  lemma OtherOwnerKeepsOut(w: World, owner: string, delay: real, reason: string, released: bool)
    requires Quiet(w) && w.file.Absent? && owner != MAIN && owner != "" && delay >= 0.0
    ensures var held := Next(w, OtherClaim(owner));
            var later := if released then Next(held, OtherRelease(owner)) else held;
            Run(later, [Wait(delay), Check(reason), Admit]).tasks
            == if released || delay >= w.ttl then [Task(reason, w.now + delay, Queued)] else []
  {
    var held := Next(w, OtherClaim(owner));
    var later := if released then Next(held, OtherRelease(owner)) else held;
    ThreeSteps(later, Wait(delay), Check(reason), Admit);
    assert [] + [Task(reason, w.now + delay, Queued)] == [Task(reason, w.now + delay, Queued)];
  }

  /** A crash forgets tasks and reasons but not the claim: the exit it was made for stays shut,
      to the restarted process as well, exactly until the claim's TTL is over. */
  lemma CrashKeepsClaim(w: World, i: nat, delay: real, reason: string)
    requires Inv(w) && i < |w.tasks| && w.tasks[i].Live() && delay >= 0.0
    ensures Run(Next(w, Crash), [Wait(delay), Check(reason), Admit]).tasks
            == if w.now + delay >= w.tasks[i].at + w.ttl then [Task(reason, w.now + delay, Queued)] else []
  {
    ThreeSteps(Next(w, Crash), Wait(delay), Check(reason), Admit);
    assert [] + [Task(reason, w.now + delay, Queued)] == [Task(reason, w.now + delay, Queued)];
  }

  lemma Unroll(w: World, steps: seq<Step>, last: Step)
    ensures Run(w, steps + [last]) == Next(Run(w, steps), last)
  {
    assert (steps + [last])[..|steps|] == steps;
  }
}
