/** Concurrent flips of one task through `update`: each call takes the registry's
    lock, reads the entry, installs the new one and releases the lock, and other
    threads run in between. */
module PromotionAccounting {
  import opened Json
  import opened TasksCore
  import opened TaskRegistry

  type Thread = nat
  type Task = TaskState<int>

  /** What a call does to the task: the two flips, a status change of a task that
      has not ended (completion, failure, kill), or dropping the entry. */
  datatype Op = ToForeground | ToBackground | End(status: Status) | Drop

  datatype Pc =
    | Idle
    | Wants(op: Op)
    | Locked(op: Op)
    | HasRead(op: Op, prev: Option<Task>)
    | HasWritten(op: Op, promoted: bool)
    | Done(op: Op, promoted: bool)

  datatype Step = Begin(t: Thread, op: Op) | Acquire(t: Thread) | Read(t: Thread) | Write(t: Thread) | Release(t: Thread)

  /** One change of the flag, with the status the task had. */
  datatype Flip = Flip(up: bool, status: Status)

  datatype World = World(
    task: Option<Task>,
    lock: Option<Thread>,
    pcs: map<Thread, Pc>,
    flips: seq<Flip>,
    trues: nat)             // calls that returned True

  function Start(task: Option<Task>): World {
    World(task, None, map[], [], 0)
  }

  function PcOf(w: World, t: Thread): Pc {
    if t in w.pcs then w.pcs[t] else Idle
  }

  function Go(w: World, t: Thread, pc: Pc): World {
    w.(pcs := w.pcs[t := pc])
  }

  /** The new entry for an old one. */
  function Image(op: Op, prev: Option<Task>): Option<Task> {
    if prev.None? then None
    else
      match op
      case ToForeground => Some(Demoted(prev.value))
      case ToBackground => Some(Promoted(prev.value))
      case End(s) => Some(if IsTerminal(prev.value.status) || !IsTerminal(s) then prev.value else prev.value.(status := s))
      case Drop => None
  }

  function Flipped(before: Option<Task>, after: Option<Task>): seq<Flip> {
    if before.Some? && after.Some? && before.value.backgrounded != after.value.backgrounded then
      [Flip(after.value.backgrounded, before.value.status)]
    else []
  }

  function Next(w: World, step: Step): Option<World> {
    var t := step.t;
    match (step, PcOf(w, t))
    case (Begin(_, op), Idle) => Some(Go(w, t, Wants(op)))
    case (Begin(_, op), Done(_, _)) => Some(Go(w, t, Wants(op)))
    case (Acquire(_), Wants(op)) => if w.lock.None? then Some(Go(w, t, Locked(op)).(lock := Some(t))) else None
    case (Read(_), Locked(op)) => Some(Go(w, t, HasRead(op, w.task)))
    case (Write(_), HasRead(op, prev)) =>
      var promoted := op == ToBackground && prev.Some? && CanPromote(prev.value);
      Some(Go(w, t, HasWritten(op, promoted)).(
        task := Image(op, prev), flips := w.flips + Flipped(w.task, Image(op, prev))))
    case (Release(_), HasWritten(op, promoted)) =>
      Some(Go(w, t, Done(op, promoted)).(lock := None, trues := w.trues + if promoted then 1 else 0))
    case _ => None
  }

  function Run(task: Option<Task>, steps: seq<Step>): Option<World> {
    if steps == [] then Some(Start(task))
    else
      match Run(task, steps[..|steps| - 1])
      case None => None
      case Some(w) => Next(w, steps[|steps| - 1])
  }

  /******* Accounting *******/

  function Ups(flips: seq<Flip>): nat {
    if flips == [] then 0 else Ups(flips[..|flips| - 1]) + if flips[|flips| - 1].up then 1 else 0
  }

  /** The flips alternate, and start away from `first`. */
  predicate Alternates(flips: seq<Flip>, first: bool) {
    && (flips != [] ==> flips[0].up != first)
    && forall i | 0 < i < |flips| :: flips[i].up != flips[i - 1].up
  }

  predicate OnlyRunningPromoted(flips: seq<Flip>) {
    forall i | 0 <= i < |flips| :: flips[i].up ==> flips[i].status == Running
  }

  predicate Inside(pc: Pc) {
    pc.Locked? || pc.HasRead? || pc.HasWritten?
  }

  ghost predicate Exclusive(w: World) {
    forall t: Thread :: Inside(PcOf(w, t)) <==> w.lock == Some(t)
  }

  function HolderPc(w: World): Pc {
    if w.lock.Some? then PcOf(w, w.lock.value) else Idle
  }

  /** The flag that the flips lead to. */
  function Flag(flips: seq<Flip>, first: bool): bool {
    if flips == [] then first else flips[|flips| - 1].up
  }

  ghost predicate Safe(w: World, first: bool) {
    && Exclusive(w)
    && (HolderPc(w).HasRead? ==> HolderPc(w).prev == w.task)
    && Ups(w.flips) == w.trues + (if HolderPc(w).HasWritten? && HolderPc(w).promoted then 1 else 0)
    && Alternates(w.flips, first) && OnlyRunningPromoted(w.flips)
    && (w.task.Some? ==> w.task.value.backgrounded == Flag(w.flips, first))
  }

  lemma FlipsGrow(flips: seq<Flip>, first: bool, f: Flip)
    requires Alternates(flips, first) && f.up != Flag(flips, first)
    ensures Alternates(flips + [f], first) && Flag(flips + [f], first) == f.up
    ensures Ups(flips + [f]) == Ups(flips) + if f.up then 1 else 0
  {
    assert (flips + [f])[..|flips|] == flips;
  }

  lemma StepIsSafe(w: World, step: Step, first: bool)
    requires Safe(w, first) && Next(w, step).Some?
    ensures Safe(Next(w, step).value, first)
  {
    hide Ups, Alternates;
    var n := Next(w, step).value;
    assert Inside(PcOf(w, step.t)) <==> w.lock == Some(step.t);
    forall t: Thread
      ensures Inside(PcOf(n, t)) <==> n.lock == Some(t)
    {
      assert Inside(PcOf(w, t)) <==> w.lock == Some(t);
      assert t != step.t ==> PcOf(n, t) == PcOf(w, t);
    }
    if step.Write? {
      var fs := Flipped(w.task, n.task);
      if fs != [] {
        FlipsGrow(w.flips, first, fs[0]);
      } else {
        assert w.flips + [] == w.flips;
      }
    }
  }

  lemma StartIsSafe(w: World, first: bool)
    requires w.pcs == map[] && w.lock.None? && w.flips == [] && w.trues == 0
    requires w.task.Some? ==> w.task.value.backgrounded == first
    ensures Safe(w, first)
  {
    assert forall t: Thread :: PcOf(w, t) == Idle;
  }

  lemma {:induction false} RunIsSafe(task: Option<Task>, steps: seq<Step>, first: bool)
    requires Run(task, steps).Some?
    requires task.Some? ==> task.value.backgrounded == first
    ensures Safe(Run(task, steps).value, first)
  {
    hide Next, Safe;
    if steps == [] {
      StartIsSafe(Start(task), first);
    } else {
      RunIsSafe(task, steps[..|steps| - 1], first);
      StepIsSafe(Run(task, steps[..|steps| - 1]).value, steps[|steps| - 1], first);
    }
  }

  /** Over any interleaving: promotions and demotions alternate, only a running
      task is promoted, and with nobody in the lock the True results are as many
      as the promotions. */
  lemma PromotionsAddUp(task: Option<Task>, steps: seq<Step>)
    requires Run(task, steps).Some?
    ensures var w := Run(task, steps).value;
      && OnlyRunningPromoted(w.flips)
      && Alternates(w.flips, task.Some? && task.value.backgrounded)
      && (w.lock.None? ==> w.trues == Ups(w.flips))
  {
    RunIsSafe(task, steps, task.Some? && task.value.backgrounded);
  }

  /** A flip changes the flag and no other field, and it never brings a task back
      or drops one. */
  lemma FlipsTouchOnlyTheFlag(task: Option<Task>, steps: seq<Step>, t: Thread)
    requires Run(task, steps).Some? && Next(Run(task, steps).value, Write(t)).Some?
    requires PcOf(Run(task, steps).value, t).op == ToForeground || PcOf(Run(task, steps).value, t).op == ToBackground
    ensures var w, n := Run(task, steps).value, Next(Run(task, steps).value, Write(t)).value;
      && (n.task.Some? <==> w.task.Some?)
      && (w.task.Some? ==> n.task.value == w.task.value.(backgrounded := n.task.value.backgrounded))
      && PcOf(n, t).promoted == (w.task.Some? && n.task.value.backgrounded && !w.task.value.backgrounded)
  {
    RunIsSafe(task, steps, task.Some? && task.value.backgrounded);
    var w := Run(task, steps).value;
    assert Inside(PcOf(w, t)) <==> w.lock == Some(t);
  }

  /******* Progress *******/

  function Then(w: Option<World>, step: Step): Option<World> {
    if w.None? then None else Next(w.value, step)
  }

  function CallOf(w: World, t: Thread, op: Op): Option<World> {
    Then(Then(Then(Then(Then(Some(w), Begin(t, op)), Acquire(t)), Read(t)), Write(t)), Release(t))
  }

  /** A call that finds the lock free goes through. */
  lemma CallGoesThrough(w: World, t: Thread, op: Op)
    requires w.lock.None? && (PcOf(w, t).Idle? || PcOf(w, t).Done?)
    ensures CallOf(w, t, op).Some?
    ensures var n, promoted := CallOf(w, t, op).value, op == ToBackground && w.task.Some? && CanPromote(w.task.value);
      n.task == Image(op, w.task) && n.lock.None? && PcOf(n, t) == Done(op, promoted)
      && n.trues == w.trues + if promoted then 1 else 0
  {
    hide Image, Flipped, CanPromote;
    var w1 := Next(w, Begin(t, op)).value;
    var w2 := Next(w1, Acquire(t)).value;
    var w3 := Next(w2, Read(t)).value;
    var w4 := Next(w3, Write(t)).value;
    var w5 := Next(w4, Release(t)).value;
  }

  /** A running foreground agent is promoted, and the call says so; one that is in the
      background, has ended or is of another type is left as it is. */
  lemma PromotionGoesThrough(w: World, t: Thread, task: Task)
    requires w.lock.None? && PcOf(w, t).Idle? && w.task == Some(task)
    ensures CallOf(w, t, ToBackground).Some?
    ensures var n := CallOf(w, t, ToBackground).value;
      if task.localAgent && task.status == Running && !task.backgrounded
      then n.task == Some(task.(backgrounded := true)) && PcOf(n, t) == Done(ToBackground, true)
      else n.task == Some(task) && PcOf(n, t) == Done(ToBackground, false)
  {
    hide Next, CallOf;
    CallGoesThrough(w, t, ToBackground);
  }

  /** A local agent ends up in the foreground, whatever its status. */
  lemma DemotionGoesThrough(w: World, t: Thread, task: Task)
    requires w.lock.None? && PcOf(w, t).Idle? && w.task == Some(task)
    ensures CallOf(w, t, ToForeground).Some?
    ensures CallOf(w, t, ToForeground).value.task
         == Some(if task.localAgent then task.(backgrounded := false) else task)
  {
    hide Next, CallOf;
    CallGoesThrough(w, t, ToForeground);
  }

  /** A task that has not ended takes the terminal status it is given, and keeps its
      flag; one that has ended stays as it is. */
  lemma EndGoesThrough(w: World, t: Thread, task: Task, status: Status)
    requires w.lock.None? && PcOf(w, t).Idle? && w.task == Some(task) && IsTerminal(status)
    ensures CallOf(w, t, End(status)).Some?
    ensures CallOf(w, t, End(status)).value.task
         == Some(if IsTerminal(task.status) then task else task.(status := status))
  {
    hide Next, CallOf;
    CallGoesThrough(w, t, End(status));
  }
}
