/** Resuming a background worker: any number of callers, kills, evictions and
    finishing workers, as a step system over the shared state
    (src/agent/resume_agent.py, with the launcher of
    src/tool_system/tools/agent.py:789-1115). */
module ResumeAgent {
  import opened Unicode
  import opened Json
  import opened Transcript
  import opened CrashRecovery
  import opened TasksCore

  datatype Task = Task(localAgent: bool, status: Status)

  type Caller = nat

  /** Where a call of `_resume` stands.  From `InLock` to `Refused` it holds the
      continuation's lock. */
  datatype Pc =
    | Idle
    | Fetched(found: bool)                   // has looked the continuation up
    | WantsLock
    | InLock
    | Waiting                                // on the `finished` event
    | Replaying
    | Restarting
    | Registered(previous: Option<Task>)     // has published the running task
    | Cleared(previous: Option<Task>)        // has cleared `finished`
    | Launched
    | Refused
    | Done(resumed: bool)

  /** The first launch, which takes no lock. */
  datatype Launcher = NotYet | TaskKnown | ContinuationKnown | Starting | Started | TaskGone | ContinuationGone | GaveUp

  datatype World = World(
    task: Option<Task>,       // the registry entry, absent once evicted
    published: bool,          // the continuation is in the session's map
    lock: Option<Caller>,
    finished: bool,           // the event
    starts: nat,              // workers started, by resume calls or at first
    ends: nat,                // workers that have set `finished`, their last act
    resumes: nat,             // workers started by resume calls
    successes: nat,           // calls that returned a successful result
    launcher: Launcher,
    pcs: map<Caller, Pc>)

  const INITIAL := World(None, false, None, false, 0, 0, 0, 0, NotYet, map[])

  datatype Step =
    | FirstLaunch                  // the next step of the first launch
    | FirstLaunchFails             // the thread could not be started
    | WorkerReports(status: Status)
    | WorkerEnds
    | Kill
    | Evict
    | Call(c: Caller)
    | ReadTask(c: Caller)
    | Acquire(c: Caller)
    | CheckTask(c: Caller)
    | WaitOver(c: Caller)
    | WaitTimesOut(c: Caller)
    | Replayed(c: Caller, ok: bool)
    | Admitted(c: Caller, ok: bool)
    | ClearFinished(c: Caller)
    | StartWorker(c: Caller, ok: bool)
    | Return(c: Caller)

  function PcOf(w: World, c: Caller): Pc {
    if c in w.pcs then w.pcs[c] else Idle
  }

  function Go(w: World, c: Caller, pc: Pc): World {
    w.(pcs := w.pcs[c := pc])
  }

  predicate Resumable(task: Option<Task>) {
    task.None? || IsTerminal(task.value.status)
  }

  function AfterFirstLaunch(w: World): Option<World> {
    match w.launcher
    case NotYet => Some(w.(task := Some(Task(true, Running)), launcher := TaskKnown))
    case TaskKnown => Some(w.(published := true, finished := false, launcher := ContinuationKnown))
    case ContinuationKnown => Some(w.(finished := false, launcher := Starting))
    case Starting => Some(w.(starts := w.starts + 1, launcher := Started))
    case TaskGone => Some(w.(published := false, launcher := ContinuationGone))
    case ContinuationGone => Some(w.(finished := true, launcher := GaveUp))
    case _ => None
  }

  /** A step of the call `c`, which stands at `pc`. */
  function AfterCall(w: World, step: Step, c: Caller, pc: Pc): Option<World> {
    match (step, pc)
    case (Call(_), Idle) => Some(Go(w, c, Fetched(w.published)))
    case (Call(_), Done(_)) => Some(Go(w, c, Fetched(w.published)))
    case (ReadTask(_), Fetched(found)) =>
      Some(Go(w, c,
        if !found || (w.task.Some? && !(w.task.value.localAgent && IsTerminal(w.task.value.status))) then Done(false)
        else WantsLock))
    case (Acquire(_), WantsLock) => if w.lock.None? then Some(Go(w, c, InLock).(lock := Some(c))) else None
    case (CheckTask(_), InLock) => Some(Go(w, c, if Resumable(w.task) then Waiting else Refused))
    case (WaitOver(_), Waiting) => if w.finished then Some(Go(w, c, Replaying)) else None
    case (WaitTimesOut(_), Waiting) => if w.finished then None else Some(Go(w, c, Refused))
    case (Replayed(_, ok), Replaying) => Some(Go(w, c, if ok then Restarting else Refused))
    case (Admitted(_, ok), Restarting) =>
      Some(if ok then Go(w, c, Registered(w.task)).(task := Some(Task(true, Running))) else Go(w, c, Refused))
    case (ClearFinished(_), Registered(previous)) =>
      // looking up a continuation that is gone raises KeyError
      Some(if w.published then Go(w, c, Cleared(previous)).(finished := false) else Go(w, c, Refused))
    case (StartWorker(_, ok), Cleared(previous)) =>
      Some(
        if ok then Go(w, c, Launched).(starts := w.starts + 1, resumes := w.resumes + 1)
        else Go(w, c, Refused).(task := previous, finished := true))
    case (Return(_), Launched) => Some(Go(w, c, Done(true)).(lock := None, successes := w.successes + 1))
    case (Return(_), Refused) => Some(Go(w, c, Done(false)).(lock := None))
    case _ => None
  }

  function Next(w: World, step: Step): Option<World> {
    match step
    case FirstLaunch => AfterFirstLaunch(w)
    case FirstLaunchFails => if w.launcher == Starting then Some(w.(task := None, launcher := TaskGone)) else None
    case WorkerReports(s) =>
      if w.starts > w.ends && w.task.Some? && !IsTerminal(w.task.value.status) && IsTerminal(s) then
        Some(w.(task := Some(w.task.value.(status := s))))
      else None
    case WorkerEnds => if w.starts > w.ends then Some(w.(ends := w.ends + 1, finished := true)) else None
    case Kill =>
      if w.task.Some? && !IsTerminal(w.task.value.status) then Some(w.(task := Some(w.task.value.(status := Killed))))
      else None
    case Evict => if w.task.Some? && IsTerminal(w.task.value.status) then Some(w.(task := None)) else None
    case _ => AfterCall(w, step, step.c, PcOf(w, step.c))
  }

  function Run(steps: seq<Step>): Option<World> {
    if steps == [] then Some(INITIAL)
    else
      match Run(steps[..|steps| - 1])
      case None => None
      case Some(w) => Next(w, steps[|steps| - 1])
  }

  /******* At most one live worker *******/

  function Live(w: World): int {
    w.starts - w.ends
  }

  predicate InCritical(pc: Pc) {
    !pc.Idle? && !pc.Fetched? && !pc.WantsLock? && !pc.Done?
  }

  /** The call has seen `finished` set and has not cleared it yet. */
  predicate PastWait(pc: Pc) {
    pc.Replaying? || pc.Restarting? || pc.Registered?
  }

  predicate SawContinuation(pc: Pc) {
    pc.WantsLock? || InCritical(pc) || pc == Fetched(true)
  }

  ghost predicate LockIsExclusive(w: World) {
    forall c: Caller :: InCritical(PcOf(w, c)) <==> w.lock == Some(c)
  }

  function HolderPc(w: World): Pc {
    if w.lock.Some? then PcOf(w, w.lock.value) else Idle
  }

  /** What the event, the worker count and the lock holder owe one another. */
  predicate EventIsHonest(w: World) {
    && 0 <= Live(w) <= 1
    && (Live(w) == 1 ==> !w.finished)
    && (PastWait(HolderPc(w)) ==> w.finished)
    && (HolderPc(w).Cleared? ==> !w.finished && Live(w) == 0)
    && ((!w.launcher.Started? && !w.launcher.GaveUp?) ==>
          !w.finished && w.starts == 0 && !HolderPc(w).Cleared?)
  }

  predicate CountsAgree(w: World) {
    w.resumes == w.successes + if HolderPc(w).Launched? then 1 else 0
  }

  predicate Unpublished(l: Launcher) {
    l.NotYet? || l.TaskKnown?
  }

  ghost predicate NobodyBeforePublication(w: World) {
    Unpublished(w.launcher) ==> !w.published && forall c: Caller :: !SawContinuation(PcOf(w, c))
  }

  /** A call past the check would put back a task that can be resumed again. */
  predicate CanRestore(w: World) {
    match HolderPc(w)
    case Waiting => Resumable(w.task)
    case Replaying => Resumable(w.task)
    case Restarting => Resumable(w.task)
    case Registered(previous) => Resumable(previous)
    case Cleared(previous) => Resumable(previous)
    case _ => true
  }

  ghost predicate Safe(w: World) {
    LockIsExclusive(w) && EventIsHonest(w) && CountsAgree(w) && CanRestore(w) && NobodyBeforePublication(w)
  }

  lemma CallIsSafe(w: World, step: Step, c: Caller)
    requires Safe(w) && AfterCall(w, step, c, PcOf(w, c)).Some?
    ensures Safe(AfterCall(w, step, c, PcOf(w, c)).value)
  {
    var t := AfterCall(w, step, c, PcOf(w, c)).value;
    forall d: Caller
      ensures InCritical(PcOf(t, d)) <==> t.lock == Some(d)
      ensures Unpublished(w.launcher) ==> !SawContinuation(PcOf(t, d))
    {
      assert InCritical(PcOf(w, d)) <==> w.lock == Some(d);
      assert InCritical(PcOf(w, c)) <==> w.lock == Some(c);
      assert Unpublished(w.launcher) ==> !SawContinuation(PcOf(w, d)) && !SawContinuation(PcOf(w, c));
      assert d != c ==> PcOf(t, d) == PcOf(w, d);
    }
  }

  lemma StepIsSafe(w: World, step: Step)
    requires Safe(w) && Next(w, step).Some?
    ensures Safe(Next(w, step).value)
  {
    hide AfterCall;
    var t := Next(w, step).value;
    match step {
      case FirstLaunch => OthersStay(w, t);
      case FirstLaunchFails => OthersStay(w, t);
      case WorkerReports(_) => OthersStay(w, t);
      case WorkerEnds => OthersStay(w, t);
      case Kill => OthersStay(w, t);
      case Evict => OthersStay(w, t);
      case _ => CallIsSafe(w, step, step.c);
    }
  }

  lemma OthersStay(w: World, t: World)
    requires LockIsExclusive(w) && t.pcs == w.pcs && t.lock == w.lock
    ensures LockIsExclusive(t) && HolderPc(t) == HolderPc(w)
    ensures forall c: Caller :: PcOf(t, c) == PcOf(w, c)
  {
    forall c: Caller
      ensures PcOf(t, c) == PcOf(w, c)
      ensures InCritical(PcOf(t, c)) <==> t.lock == Some(c)
    {
      assert InCritical(PcOf(w, c)) <==> w.lock == Some(c);
    }
  }

  lemma InitialIsSafe(w: World)
    requires w.pcs == map[] && w.lock.None? && !w.published && !w.finished && w.launcher == NotYet
    requires w.starts == w.ends == w.resumes == w.successes == 0
    ensures Safe(w)
  {
    assert forall c: Caller :: PcOf(w, c) == Idle;
  }

  lemma {:induction false} RunIsSafe(steps: seq<Step>)
    requires Run(steps).Some?
    ensures Safe(Run(steps).value)
  {
    hide Next, Safe;
    if steps == [] {
      InitialIsSafe(INITIAL);
    } else {
      RunIsSafe(steps[..|steps| - 1]);
      StepIsSafe(Run(steps[..|steps| - 1]).value, steps[|steps| - 1]);
    }
  }

  /** Whatever the callers, kills, evictions and workers do: at most one worker is
      alive, and a finished event means none is. */
  lemma AtMostOneWorker(steps: seq<Step>)
    requires Run(steps).Some?
    ensures 0 <= Live(Run(steps).value) <= 1
    ensures Run(steps).value.finished ==> Live(Run(steps).value) == 0
  {
    RunIsSafe(steps);
  }

  /** A run starts only when every worker started before it has set `finished`. */
  lemma StartsAfterFinish(steps: seq<Step>, c: Caller)
    requires Run(steps).Some? && Next(Run(steps).value, StartWorker(c, true)).Some?
    ensures Run(steps).value.starts == Run(steps).value.ends
  {
    RunIsSafe(steps);
    var w := Run(steps).value;
    assert InCritical(PcOf(w, c)) <==> w.lock == Some(c);
  }

  /** With nobody in the lock, each successful result stands for one launch. */
  lemma SuccessesAreLaunches(steps: seq<Step>)
    requires Run(steps).Some? && Run(steps).value.lock.None?
    ensures Run(steps).value.successes == Run(steps).value.resumes
  {
    RunIsSafe(steps);
  }

  /** A call that is refused leaves a task that can be resumed (or the one that
      another caller is running), as long as the continuation is still known. */
  lemma RefusalRestores(steps: seq<Step>, step: Step, c: Caller)
    requires Run(steps).Some? && Next(Run(steps).value, step).Some?
    requires PcOf(Next(Run(steps).value, step).value, c) == Refused && PcOf(Run(steps).value, c) != Refused
    requires Run(steps).value.published
    ensures var w, t := Run(steps).value, Next(Run(steps).value, step).value;
      Resumable(t.task) || (step == CheckTask(c) && t.task == w.task)
  {
    RunIsSafe(steps);
    var w := Run(steps).value;
    assert InCritical(PcOf(w, c)) <==> w.lock == Some(c);
  }

  /** The guard of the failing branch: clearing the event looks the continuation up
      again, and raises when it is gone; nothing takes the running task back. */
  predicate Misses(w: World, step: Step, c: Caller) {
    step == ClearFinished(c) && !w.published
  }

  /** Only its own steps move a call, and one that is refused without missing the
      continuation leaves the task as the published case does. */
  lemma UnpublishedRefusal(w: World, step: Step, c: Caller)
    requires Safe(w) && Next(w, step).Some? && !w.published
    requires PcOf(Next(w, step).value, c) == Refused && PcOf(w, c) != Refused
    ensures var t := Next(w, step).value;
      if step == ClearFinished(c) then t.task == w.task
      else Resumable(t.task) || (step == CheckTask(c) && t.task == w.task)
  {
    hide LockIsExclusive, NobodyBeforePublication, CountsAgree, EventIsHonest;
    HoldsLockIff(w, c);
  }

  lemma HoldsLockIff(w: World, c: Caller)
    requires LockIsExclusive(w)
    ensures InCritical(PcOf(w, c)) <==> w.lock == Some(c)
  {
  }

  /** A refused call leaves a task that can be resumed, or the one another caller is
      running, exactly when it does not miss the continuation, or the task it
      published has been killed in the meantime. */
  lemma RefusalRestoresIff(steps: seq<Step>, step: Step, c: Caller)
    requires Run(steps).Some? && Next(Run(steps).value, step).Some?
    requires PcOf(Next(Run(steps).value, step).value, c) == Refused && PcOf(Run(steps).value, c) != Refused
    ensures var w, t := Run(steps).value, Next(Run(steps).value, step).value;
      Resumable(t.task) || (step == CheckTask(c) && t.task == w.task)
      <==> !Misses(w, step, c) || Resumable(w.task)
  {
    var w := Run(steps).value;
    RunIsSafe(steps);
    if w.published {
      RefusalRestores(steps, step, c);
    } else {
      UnpublishedRefusal(w, step, c);
    }
  }

  // The first launch fails after caller 0 found the continuation but before it
  // read the task; the restart then misses the continuation.
  const STRANDING := [
    FirstLaunch, FirstLaunch, FirstLaunch, Call(0), FirstLaunchFails, ReadTask(0), FirstLaunch, FirstLaunch,
    Acquire(0), CheckTask(0), WaitOver(0), Replayed(0, true), Admitted(0, true), ClearFinished(0), Return(0)]

  lemma Take(steps: seq<Step>, k: nat, w: World) returns (t: World)
    requires k < |steps| && Run(steps[..k]) == Some(w) && Next(w, steps[k]).Some?
    ensures t == Next(w, steps[k]).value && Run(steps[..k + 1]) == Some(t)
  {
    assert steps[..k + 1][..k] == steps[..k];
    t := Next(w, steps[k]).value;
  }

  /** The first launch has failed for good; caller 0 stands at `pc`. */
  predicate Orphaned(w: World, task: Option<Task>, lock: Option<Caller>, pc: Pc) {
    && w.task == task && w.lock == lock && PcOf(w, 0) == pc
    && !w.published && w.finished && w.starts == w.ends == 0
  }

  lemma LaunchFailsUnderCaller() returns (w: World)
    ensures Run(STRANDING[..8]) == Some(w) && Orphaned(w, None, None, WantsLock)
  {
    hide Run;
    var w0 := RunNothing();
    var w1 := Take(STRANDING, 0, w0);
    var w2 := Take(STRANDING, 1, w1);
    var w3 := Take(STRANDING, 2, w2);
    var w4 := Take(STRANDING, 3, w3);
    var w5 := Take(STRANDING, 4, w4);
    var w6 := Take(STRANDING, 5, w5);
    var w7 := Take(STRANDING, 6, w6);
    var w8 := Take(STRANDING, 7, w7);
    w := w8;
  }

  lemma CallerGoesOn(w8: World) returns (w: World)
    requires Run(STRANDING[..8]) == Some(w8) && Orphaned(w8, None, None, WantsLock)
    ensures Run(STRANDING[..12]) == Some(w) && Orphaned(w, None, Some(0), Restarting)
  {
    hide Run;
    var w9 := Take(STRANDING, 8, w8);
    var w10 := Take(STRANDING, 9, w9);
    var w11 := Take(STRANDING, 10, w10);
    var w12 := Take(STRANDING, 11, w11);
    w := w12;
  }

  lemma CallerIsRefused(w12: World) returns (w: World)
    requires Run(STRANDING[..12]) == Some(w12) && Orphaned(w12, None, Some(0), Restarting)
    ensures Run(STRANDING[..15]) == Some(w) && Orphaned(w, Some(Task(true, Running)), None, Done(false))
  {
    hide Run;
    var w13 := Take(STRANDING, 12, w12);
    var w14 := Take(STRANDING, 13, w13);
    var w15 := Take(STRANDING, 14, w14);
    w := w15;
  }

  /** Without that, a refused call can leave the task running with no worker. */
  lemma RefusalCanStrand()
    ensures Run(STRANDING).Some?
    ensures var w := Run(STRANDING).value;
      w.task == Some(Task(true, Running)) && Live(w) == 0 && w.lock.None? && PcOf(w, 0) == Done(false)
  {
    hide Run;
    var w8 := LaunchFailsUnderCaller();
    var w12 := CallerGoesOn(w8);
    var w15 := CallerIsRefused(w12);
    assert STRANDING[..15] == STRANDING;
  }

  lemma RunNothing() returns (w: World)
    ensures w == INITIAL && Run(STRANDING[..0]) == Some(w)
  {
    w := INITIAL;
  }

  /******* A resume that goes through *******/

  function RunFrom(w: World, steps: seq<Step>): Option<World>
    decreases |steps|
  {
    if steps == [] then Some(w)
    else
      match Next(w, steps[0])
      case None => None
      case Some(t) => RunFrom(t, steps[1..])
  }

  lemma {:induction false} RunGoesOn(before: seq<Step>, after: seq<Step>)
    requires Run(before).Some?
    ensures Run(before + after) == RunFrom(Run(before).value, after)
    decreases |after|
  {
    hide Next;
    if after == [] {
      assert before + after == before;
    } else {
      var first := before + [after[0]];
      assert first[..|first| - 1] == before && first + after[1..] == before + after;
      if Next(Run(before).value, after[0]).Some? {
        RunGoesOn(first, after[1..]);
      } else {
        StuckStaysStuck(first, after[1..]);
      }
    }
  }

  lemma {:induction false} StuckStaysStuck(before: seq<Step>, after: seq<Step>)
    requires Run(before).None?
    ensures Run(before + after).None?
    decreases |after|
  {
    hide Next;
    if after == [] {
      assert before + after == before;
    } else {
      var all := before + after;
      StuckStaysStuck(before, after[..|after| - 1]);
      assert all[..|all| - 1] == before + after[..|after| - 1];
    }
  }

  lemma FirstStep(w: World, steps: seq<Step>) returns (t: World)
    requires steps != [] && Next(w, steps[0]).Some?
    ensures t == Next(w, steps[0]).value && RunFrom(w, steps) == RunFrom(t, steps[1..])
  {
    hide Next;
    t := Next(w, steps[0]).value;
  }

  /** The world is `base`, but `c` has moved on to `pc`. */
  ghost predicate Moved(w: World, base: World, c: Caller, pc: Pc) {
    && w.(pcs := base.pcs) == base && PcOf(w, c) == pc
    && forall d: Caller | d != c :: PcOf(w, d) == PcOf(base, d)
  }

  /** A caller that meets a finished agent: the event is set and the lock free. */
  predicate CanResume(w: World, c: Caller) {
    && (PcOf(w, c).Idle? || PcOf(w, c).Done?) && w.published && w.finished && w.lock.None?
    && (w.task.Some? ==> w.task.value.localAgent && IsTerminal(w.task.value.status))
  }

  function ResumeSteps(c: Caller): seq<Step> {
    [Call(c), ReadTask(c), Acquire(c), CheckTask(c), WaitOver(c), Replayed(c, true),
     Admitted(c, true), ClearFinished(c), StartWorker(c, true), Return(c)]
  }

  lemma TakesTheLock(w: World, c: Caller) returns (t: World)
    requires CanResume(w, c)
    ensures RunFrom(w, ResumeSteps(c)) == RunFrom(t, ResumeSteps(c)[3..])
    ensures Moved(t, w.(lock := Some(c)), c, InLock)
  {
    hide RunFrom;
    var steps := ResumeSteps(c);
    var w1 := FirstStep(w, steps);
    var w2 := FirstStep(w1, steps[1..]);
    assert steps[1..][1..] == steps[2..] && steps[2..][1..] == steps[3..];
    t := FirstStep(w2, steps[2..]);
  }

  lemma ReachesTheRestart(w: World, c: Caller) returns (t: World)
    requires PcOf(w, c) == InLock && w.lock == Some(c) && w.finished && Resumable(w.task)
    ensures RunFrom(w, ResumeSteps(c)[3..]) == RunFrom(t, ResumeSteps(c)[6..])
    ensures Moved(t, w, c, Restarting)
  {
    hide RunFrom;
    var steps := ResumeSteps(c);
    var w1 := FirstStep(w, steps[3..]);
    assert steps[3..][1..] == steps[4..] && steps[4..][1..] == steps[5..] && steps[5..][1..] == steps[6..];
    var w2 := FirstStep(w1, steps[4..]);
    t := FirstStep(w2, steps[5..]);
  }

  lemma PublishesTheTask(w: World, c: Caller) returns (t: World)
    requires PcOf(w, c) == Restarting && w.published
    ensures RunFrom(w, ResumeSteps(c)[6..]) == RunFrom(t, ResumeSteps(c)[8..])
    ensures Moved(t, w.(task := Some(Task(true, Running)), finished := false), c, Cleared(w.task))
  {
    hide RunFrom;
    var steps := ResumeSteps(c);
    var w1 := FirstStep(w, steps[6..]);
    assert steps[6..][1..] == steps[7..] && steps[7..][1..] == steps[8..];
    t := FirstStep(w1, steps[7..]);
  }

  lemma StartsTheWorker(w: World, c: Caller) returns (t: World)
    requires PcOf(w, c).Cleared?
    ensures RunFrom(w, ResumeSteps(c)[8..]) == Some(t)
    ensures Moved(t, w.(lock := None, starts := w.starts + 1, resumes := w.resumes + 1, successes := w.successes + 1),
                  c, Done(true))
  {
    var steps := ResumeSteps(c);
    var w1 := FirstStep(w, steps[8..]);
    assert steps[8..][1..] == steps[9..] && steps[9..][1..] == [];
    t := FirstStep(w1, steps[9..]);
    assert RunFrom(t, []) == Some(t);
  }

  /** Resuming a finished agent works: every step of the call is enabled, and it
      ends in a successful result with one more worker and a running task. */
  lemma ResumeWorks(w: World, c: Caller)
    requires CanResume(w, c)
    ensures RunFrom(w, ResumeSteps(c)).Some?
    ensures Moved(RunFrom(w, ResumeSteps(c)).value,
                  w.(task := Some(Task(true, Running)), finished := false, starts := w.starts + 1,
                     resumes := w.resumes + 1, successes := w.successes + 1),
                  c, Done(true))
  {
    hide RunFrom, Next;
    var locked := TakesTheLock(w, c);
    var restarting := ReachesTheRestart(locked, c);
    var cleared := PublishesTheTask(restarting, c);
    var t := StartsTheWorker(cleared, c);
    forall d: Caller | d != c
      ensures PcOf(t, d) == PcOf(w, d)
    {
      assert PcOf(t, d) == PcOf(cleared, d) == PcOf(restarting, d) == PcOf(locked, d);
    }
  }

  /** Before the lock a call is turned away exactly when it has found no
      continuation, or a task of another type, or one that has not ended. */
  lemma TurnedAwayIff(w: World, c: Caller, found: bool)
    requires PcOf(w, c) == Fetched(found)
    ensures var t := Next(w, ReadTask(c));
      && t.Some? && t.value.(pcs := w.pcs) == w
      && (PcOf(t.value, c) == Done(false)
          <==> !found || (w.task.Some? && (!w.task.value.localAgent || !IsTerminal(w.task.value.status))))
      && (PcOf(t.value, c) != Done(false) ==> PcOf(t.value, c) == WantsLock)
  {
  }

  /** What a call in the lock does next; when it replays or asks for admission, and
      when it starts the thread, either answer will do. */
  function Onward(w: World, c: Caller, ok: bool): Step
    requires InCritical(PcOf(w, c))
  {
    match PcOf(w, c)
    case InLock => CheckTask(c)
    case Waiting => if w.finished then WaitOver(c) else WaitTimesOut(c)
    case Replaying => Replayed(c, ok)
    case Restarting => Admitted(c, ok)
    case Registered(_) => ClearFinished(c)
    case Cleared(_) => StartWorker(c, ok)
    case _ => Return(c)
  }

  /** A call in the lock is never stuck, and gives the lock back when it returns. */
  lemma LockIsGivenBack(w: World, c: Caller, ok: bool)
    requires InCritical(PcOf(w, c))
    ensures Next(w, Onward(w, c, ok)).Some?
    ensures var t := Next(w, Onward(w, c, ok)).value;
      PcOf(t, c).Done? ==> t.lock.None? && (PcOf(t, c).resumed <==> PcOf(w, c).Launched?)
  {
  }

  // The first launch, a run of its worker to the end, and then a resume.
  const FIRST_LIFE := [FirstLaunch, FirstLaunch, FirstLaunch, FirstLaunch, WorkerReports(Completed), WorkerEnds]

  lemma FirstLifeEnds() returns (w: World)
    ensures Run(FIRST_LIFE) == Some(w)
    ensures w == World(Some(Task(true, Completed)), true, None, true, 1, 1, 0, 0, Started, map[])
  {
    var w1 := FirstStep(INITIAL, FIRST_LIFE);
    var w2 := FirstStep(w1, FIRST_LIFE[1..]);
    var w3 := FirstStep(w2, FIRST_LIFE[2..]);
    var w4 := FirstStep(w3, FIRST_LIFE[3..]);
    var w5 := FirstStep(w4, FIRST_LIFE[4..]);
    w := FirstStep(w5, FIRST_LIFE[5..]);
    assert FIRST_LIFE[5..][1..] == [];
    RunGoesOn([], FIRST_LIFE);
    assert [] + FIRST_LIFE == FIRST_LIFE;
  }

  /** A reachable instance: the agent that was launched first is resumed once it has
      completed. */
  lemma FinishedAgentIsResumed(c: Caller)
    ensures Run(FIRST_LIFE + ResumeSteps(c)).Some?
    ensures var w := Run(FIRST_LIFE + ResumeSteps(c)).value;
      w.successes == 1 && w.starts == 2 && w.task == Some(Task(true, Running)) && PcOf(w, c) == Done(true)
  {
    hide Run, RunFrom, Next;
    var w := FirstLifeEnds();
    RunGoesOn(FIRST_LIFE, ResumeSteps(c));
    ResumeWorks(w, c);
  }

  // The first launch, then a kill while its worker runs, and an eviction.
  const SHORT_LIFE := [FirstLaunch, FirstLaunch, FirstLaunch, FirstLaunch, Kill, WorkerEnds, Evict]

  lemma ShortLifeEnds() returns (w: World)
    ensures Run(SHORT_LIFE) == Some(w)
    ensures w == World(None, true, None, true, 1, 1, 0, 0, Started, map[])
  {
    var w1 := FirstStep(INITIAL, SHORT_LIFE);
    var w2 := FirstStep(w1, SHORT_LIFE[1..]);
    var w3 := FirstStep(w2, SHORT_LIFE[2..]);
    var w4 := FirstStep(w3, SHORT_LIFE[3..]);
    var w5 := FirstStep(w4, SHORT_LIFE[4..]);
    var w6 := FirstStep(w5, SHORT_LIFE[5..]);
    w := FirstStep(w6, SHORT_LIFE[6..]);
    assert SHORT_LIFE[6..][1..] == [];
    RunGoesOn([], SHORT_LIFE);
    assert [] + SHORT_LIFE == SHORT_LIFE;
  }

  /** So is one that was killed and has left the registry. */
  lemma KilledAgentIsResumed(c: Caller)
    ensures Run(SHORT_LIFE + ResumeSteps(c)).Some?
    ensures var w := Run(SHORT_LIFE + ResumeSteps(c)).value;
      w.successes == 1 && w.starts == 2 && w.task == Some(Task(true, Running)) && PcOf(w, c) == Done(true)
  {
    hide Run, RunFrom, Next;
    var w := ShortLifeEnds();
    RunGoesOn(SHORT_LIFE, ResumeSteps(c));
    ResumeWorks(w, c);
  }

  /** A kill marks the task at once and leaves its worker running, so a resume that
      comes before the worker has ended waits. */
  lemma KillLeavesWorker(w: World)
    requires w.task.Some? && !IsTerminal(w.task.value.status)
    ensures Next(w, Kill) == Some(w.(task := Some(w.task.value.(status := Killed))))
  {
  }

  /******* Replaying the transcript *******/

  predicate HasRole(v: Json) {
    v.Obj? &&
    var role := Lookup(v.members, Ascii("role"), Null);
    role == Str(Ascii("user")) || role == Str(Ascii("assistant")) || role == Str(Ascii("system"))
  }

  /** A dict has one of the roles exactly when a member says so. */
  lemma RoleIsMember(ms: seq<Member>)
    requires UniqueKeys(ms)
    ensures HasRole(Obj(ms)) <==>
      || Member(Ascii("role"), Str(Ascii("user"))) in ms
      || Member(Ascii("role"), Str(Ascii("assistant"))) in ms
      || Member(Ascii("role"), Str(Ascii("system"))) in ms
  {
    var i := IndexOf(ms, Ascii("role"));
    forall v: Json
      ensures Member(Ascii("role"), v) in ms <==> i < |ms| && ms[i].value == v
    {
      if j :| 0 <= j < |ms| && ms[j] == Member(Ascii("role"), v) {
        FoundOnce(ms, Ascii("role"), j);
      }
      assert i < |ms| ==> ms[i] in ms && ms[i] == Member(Ascii("role"), ms[i].value);
    }
  }

  lemma {:induction false} FoundOnce(ms: seq<Member>, key: Text, j: nat)
    requires UniqueKeys(ms) && j < |ms| && ms[j].key == key
    ensures IndexOf(ms, key) == j
  {
    if j > 0 {
      assert ms[0].key != key;
      FoundOnce(ms[1..], key, j - 1);
    }
  }

  /** Testing a list or a dict for membership in a set raises TypeError. */
  predicate RoleIsHashable(v: Json) {
    v.Obj? ==> !Lookup(v.members, Ascii("role"), Null).Arr? && !Lookup(v.members, Ascii("role"), Null).Obj?
  }

  /** The entries that resume hands to the next run; `None` when it raises. */
  function Replay(entries: seq<Json>): Option<seq<Json>> {
    if entries == [] then Some([])
    else if !RoleIsHashable(entries[0]) then None
    else
      match Replay(entries[1..])
      case None => None
      case Some(rest) => Some(if HasRole(entries[0]) then [entries[0]] + rest else rest)
  }

  /** The replay raises exactly when some entry's role is a list or a dict. */
  lemma {:induction false} ReplayRaisesIff(entries: seq<Json>)
    ensures Replay(entries).None? <==> exists i | 0 <= i < |entries| :: !RoleIsHashable(entries[i])
  {
    hide HasRole, RoleIsHashable;
    if entries != [] {
      ReplayRaisesIff(entries[1..]);
      assert entries == [entries[0]] + entries[1..];
      assert forall i | 0 <= i < |entries[1..]| :: entries[1..][i] == entries[i + 1];
      if i :| 0 <= i < |entries| && !RoleIsHashable(entries[i]) {
        assert i > 0 ==> entries[1..][i - 1] == entries[i];
      }
    }
  }

  function Conversation(ms: seq<Message>): seq<Json> {
    if ms == [] then []
    else (if HasRole(Payload(ms[0])) then [Payload(ms[0])] else []) + Conversation(ms[1..])
  }

  lemma {:induction false} ReplayOfPayloads(ms: seq<Message>)
    requires forall i | 0 <= i < |ms| :: RoleIsHashable(Payload(ms[i]))
    ensures Replay(seq(|ms|, i requires 0 <= i < |ms| => Payload(ms[i]))) == Some(Conversation(ms))
  {
    hide Payload, HasRole, RoleIsHashable;
    var entries := seq(|ms|, i requires 0 <= i < |ms| => Payload(ms[i]));
    if ms != [] {
      assert [] + Conversation(ms[1..]) == Conversation(ms[1..]);
      ReplayOfPayloads(ms[1..]);
      assert entries[1..] == seq(|ms[1..]|, i requires 0 <= i < |ms[1..]| => Payload(ms[1..][i]));
    }
  }

  /** Resume replays exactly the user, assistant and system messages that were
      appended, in append order. */
  lemma ResumeReplaysConversation(ms: seq<Message>)
    requires forall i | 0 <= i < |ms| :: Recordable(ms[i]) && RoleIsHashable(Payload(ms[i]))
    ensures var h := AllWhole(ms); GoodHistory(h) && Replay(ReadBytes(FileOf(h))) == Some(Conversation(ms))
  {
    hide Payload, RoleIsHashable, Recordable;
    RoundTrip(ms);
    ReplayOfPayloads(ms);
  }
}
