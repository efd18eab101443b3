/** Many writers on one transcript under the Windows sidecar lock.  There
    `O_APPEND` is two steps, a seek to the end and a write at that offset, and a
    write may take only part of what it is given.  A lock holder may die at any
    point: the kernel then frees the lock and the line stays as far as it got. */
module AppendProtocol {
  import opened Unicode
  import opened Json
  import opened Transcript
  import opened CrashRecovery

  type Writer = nat

  datatype Phase =
    | Idle
    | Waiting(m: Message)              // wants the lock
    | Holding(rest: Bytes)             // has the lock, `rest` still to be written
    | Seeked(rest: Bytes, pos: nat)    // and has found the end of the file

  // An append that got the lock: whole, until its holder dies in the middle of it.
  datatype Grant = Grant(w: Writer, a: Append)

  /** `log` lists the appends in the order in which they got the lock. */
  datatype State = State(file: Bytes, holder: Option<Writer>, phases: map<Writer, Phase>, log: seq<Grant>)

  datatype Step =
    | Begin(w: Writer, m: Message)
    | Retry(w: Writer)                 // EACCES: sleep, try again
    | Acquire(w: Writer)
    | Seek(w: Writer)
    | Write(w: Writer, n: nat)
    | Release(w: Writer)
    | Die(w: Writer)                   // the lock holder crashes

  const INITIAL := State([], None, map[], [])

  function PhaseOf(s: State, w: Writer): Phase {
    if w in s.phases then s.phases[w] else Idle
  }

  function Enter(s: State, w: Writer, p: Phase): State {
    s.(phases := s.phases[w := p])
  }

  /** A write at an offset, over whatever stands there. */
  function WriteAt(file: Bytes, pos: nat, data: Bytes): Bytes {
    if pos > |file| then file
    else file[..pos] + data + if pos + |data| < |file| then file[pos + |data|..] else []
  }

  predicate HoldsLock(p: Phase) {
    p.Holding? || p.Seeked?
  }

  /** The last append stops short of `rest`. */
  function CutLast(log: seq<Grant>, rest: Bytes): seq<Grant> {
    if log == [] || rest == [] || |rest| > |LineBytes(log[|log| - 1].a.m)| then log
    else
      var g := log[|log| - 1];
      log[..|log| - 1] + [g.(a := Torn(g.a.m, |LineBytes(g.a.m)| - |rest|))]
  }

  /** One step of one writer; `None` when it cannot take it now. */
  function Next(s: State, step: Step): Option<State> {
    var p := PhaseOf(s, step.w);
    match step
    case Begin(w, m) => if p == Idle then Some(Enter(s, w, Waiting(m))) else None
    case Retry(w) => if p.Waiting? && s.holder.Some? then Some(s) else None
    case Acquire(w) =>
      if p.Waiting? && s.holder.None? then
        Some(Enter(s, w, Holding(LineBytes(p.m))).(holder := Some(w), log := s.log + [Grant(w, Whole(p.m))]))
      else None
    case Seek(w) =>
      if p.Holding? && p.rest != [] then Some(Enter(s, w, Seeked(p.rest, |s.file|))) else None
    case Write(w, n) =>
      if p.Seeked? && 0 < n <= |p.rest| then
        Some(Enter(s, w, Holding(p.rest[n..])).(file := WriteAt(s.file, p.pos, p.rest[..n])))
      else None
    case Release(w) =>
      if p == Holding([]) then Some(Enter(s, w, Idle).(holder := None)) else None
    case Die(w) =>
      if HoldsLock(p) then Some(Enter(s, w, Idle).(holder := None, log := CutLast(s.log, p.rest))) else None
  }

  function Run(steps: seq<Step>): Option<State> {
    if steps == [] then Some(INITIAL)
    else
      match Run(steps[..|steps| - 1])
      case None => None
      case Some(s) => Next(s, steps[|steps| - 1])
  }

  /******* Safety *******/

  function Chunk(a: Append): Bytes {
    if a.Torn? && a.k <= |LineBytes(a.m)| then LineBytes(a.m)[..a.k] else LineBytes(a.m)
  }

  function Lines(log: seq<Grant>): Bytes {
    if log == [] then [] else Lines(log[..|log| - 1]) + Chunk(log[|log| - 1].a)
  }

  /** What the lock holder has not yet written. */
  function Unwritten(s: State): Bytes {
    if s.holder.None? then []
    else
      match PhaseOf(s, s.holder.value)
      case Holding(rest) => rest
      case Seeked(rest, _) => rest
      case _ => []
  }

  /** One holder at a time. */
  ghost predicate Exclusive(s: State) {
    forall w: Writer :: HoldsLock(PhaseOf(s, w)) <==> s.holder == Some(w)
  }

  predicate SeeksTheEnd(s: State) {
    s.holder.Some? && PhaseOf(s, s.holder.value).Seeked? ==> PhaseOf(s, s.holder.value).pos == |s.file|
  }

  /** The lock holder is writing the append that was granted last. */
  predicate WritesTheLast(s: State) {
    s.holder.Some? ==>
      && s.log != [] && s.log[|s.log| - 1].a.Whole?
      && |Unwritten(s)| <= |LineBytes(s.log[|s.log| - 1].a.m)|
  }

  predicate TearsAreProper(log: seq<Grant>) {
    forall i | 0 <= i < |log| :: log[i].a.Torn? ==> log[i].a.k < |LineBytes(log[i].a.m)|
  }

  ghost predicate Safe(s: State) {
    && Exclusive(s) && SeeksTheEnd(s) && WritesTheLast(s) && TearsAreProper(s.log)
    && s.file + Unwritten(s) == Lines(s.log)
  }

  lemma StepIsExclusive(s: State, step: Step)
    requires Exclusive(s) && Next(s, step).Some?
    ensures Exclusive(Next(s, step).value)
    ensures !step.Begin? && !step.Retry? && !step.Acquire? ==> s.holder == Some(step.w)
  {
    hide LineBytes, WriteAt;
    var t := Next(s, step).value;
    assert HoldsLock(PhaseOf(s, step.w)) <==> s.holder == Some(step.w);
    forall w: Writer
      ensures HoldsLock(PhaseOf(t, w)) <==> t.holder == Some(w)
    {
      assert HoldsLock(PhaseOf(s, w)) <==> s.holder == Some(w);
      assert w != step.w ==> PhaseOf(t, w) == PhaseOf(s, w);
    }
  }

  lemma StepKeepsFile(s: State, step: Step)
    requires Safe(s) && Next(s, step).Some?
    ensures var t := Next(s, step).value;
      && SeeksTheEnd(t) && WritesTheLast(t) && TearsAreProper(t.log)
      && t.file + Unwritten(t) == Lines(t.log)
  {
    hide LineBytes, Lines, Exclusive;
    var t := Next(s, step).value;
    var p := PhaseOf(s, step.w);
    StepIsExclusive(s, step);
    match step {
      case Begin(w, _) => assert s.holder != Some(w) by { NotHolding(s, w); }
      case Acquire(w) => LinesGrow(s.log, Grant(w, Whole(p.m)));
      case Write(_, n) =>
        assert t.file == s.file + p.rest[..n];
        assert t.file + p.rest[n..] == s.file + (p.rest[..n] + p.rest[n..]);
        assert p.rest[..n] + p.rest[n..] == p.rest;
      case Die(_) => DeathCutsTheLast(s, p.rest);
      case _ =>
    }
  }

  lemma DeathCutsTheLast(s: State, rest: Bytes)
    requires Safe(s) && s.holder.Some? && rest == Unwritten(s)
    ensures s.file + [] == Lines(CutLast(s.log, rest)) && TearsAreProper(CutLast(s.log, rest))
  {
    hide LineBytes, Exclusive;
    var before, g := s.log[..|s.log| - 1], s.log[|s.log| - 1];
    var line := LineBytes(g.a.m);
    var k := |line| - |rest|;
    assert s.file + rest == Lines(before) + line;
    assert s.file == Lines(before) + line[..k] by {
      assert s.file == (s.file + rest)[..|s.file|];
      assert (Lines(before) + line)[..|Lines(before)| + k] == Lines(before) + line[..k];
    }
    if rest != [] {
      LinesGrow(before, g.(a := Torn(g.a.m, k)));
    }
    assert s.file + [] == s.file;
  }

  lemma NotHolding(s: State, w: Writer)
    requires Exclusive(s) && PhaseOf(s, w) == Idle
    ensures s.holder != Some(w)
  {
    assert HoldsLock(PhaseOf(s, w)) <==> s.holder == Some(w);
  }

  lemma LinesGrow(log: seq<Grant>, g: Grant)
    ensures Lines(log + [g]) == Lines(log) + Chunk(g.a)
  {
    assert (log + [g])[..|log|] == log;
  }

  lemma {:induction false} RunIsSafe(steps: seq<Step>)
    requires Run(steps).Some?
    ensures Safe(Run(steps).value)
  {
    if steps != [] {
      RunIsSafe(steps[..|steps| - 1]);
      StepIsExclusive(Run(steps[..|steps| - 1]).value, steps[|steps| - 1]);
      StepKeepsFile(Run(steps[..|steps| - 1]).value, steps[|steps| - 1]);
    }
  }

  /******* Order *******/

  function LoggedBy(log: seq<Grant>, w: Writer): seq<Message> {
    if log == [] then []
    else LoggedBy(log[..|log| - 1], w) + if log[|log| - 1].w == w then [log[|log| - 1].a.m] else []
  }

  /** The messages `w` was asked to append. */
  function AskedOf(steps: seq<Step>, w: Writer): seq<Message> {
    if steps == [] then []
    else
      var last := steps[|steps| - 1];
      AskedOf(steps[..|steps| - 1], w) + if last.Begin? && last.w == w then [last.m] else []
  }

  function StillWaiting(s: State, w: Writer): seq<Message> {
    if PhaseOf(s, w).Waiting? then [PhaseOf(s, w).m] else []
  }

  lemma StepLosesNothing(s: State, step: Step, w: Writer)
    requires Next(s, step).Some?
    ensures var t := Next(s, step).value;
      LoggedBy(t.log, w) + StillWaiting(t, w)
      == LoggedBy(s.log, w) + StillWaiting(s, w) + if step.Begin? && step.w == w then [step.m] else []
  {
    hide LineBytes, WriteAt, CutLast, LoggedBy;
    var t := Next(s, step).value;
    if step.Acquire? {
      LogGrows(s.log, Grant(step.w, Whole(PhaseOf(s, step.w).m)), w);
    } else if step.Die? {
      CutKeepsMessages(s.log, PhaseOf(s, step.w).rest, w);
    }
  }

  lemma LogGrows(log: seq<Grant>, g: Grant, w: Writer)
    ensures LoggedBy(log + [g], w) == LoggedBy(log, w) + if g.w == w then [g.a.m] else []
  {
    assert (log + [g])[..|log|] == log;
  }

  lemma CutKeepsMessages(log: seq<Grant>, rest: Bytes, w: Writer)
    ensures LoggedBy(CutLast(log, rest), w) == LoggedBy(log, w)
  {
    hide LineBytes;
    var cut := CutLast(log, rest);
    if cut != log {
      assert cut[..|log| - 1] == log[..|log| - 1];
    }
  }

  lemma {:induction false} NothingLost(steps: seq<Step>, w: Writer)
    requires Run(steps).Some?
    ensures LoggedBy(Run(steps).value.log, w) + StillWaiting(Run(steps).value, w) == AskedOf(steps, w)
  {
    hide Next;
    if steps != [] {
      NothingLost(steps[..|steps| - 1], w);
      StepLosesNothing(Run(steps[..|steps| - 1]).value, steps[|steps| - 1], w);
    }
  }

  /******* What a reader sees *******/

  function Appends(log: seq<Grant>): seq<Append> {
    seq(|log|, i requires 0 <= i < |log| => log[i].a)
  }

  predicate AllRecordable(log: seq<Grant>) {
    forall i | 0 <= i < |log| :: Recordable(log[i].a.m)
  }

  lemma {:induction false} LinesAreFile(log: seq<Grant>)
    requires AllRecordable(log) && TearsAreProper(log)
    ensures GoodHistory(Appends(log)) && FileOf(Appends(log)) == Lines(log)
  {
    hide Recordable, LineBytes;
    if log != [] {
      var before := log[..|log| - 1];
      LinesAreFile(before);
      assert Appends(log) == Appends(before) + [log[|log| - 1].a];
      FileGrows(Appends(before), log[|log| - 1].a);
    }
  }

  /** Whenever the lock is free, the file is the granted appends in lock order,
      each one whole unless its writer died in it; and each writer's messages are
      there in the order it was given them, except the one it may be waiting to
      write. */
  lemma FileIsGrantsInOrder(steps: seq<Step>)
    requires Run(steps).Some? && Run(steps).value.holder.None?
    ensures var s := Run(steps).value;
      && s.file == Lines(s.log) && TearsAreProper(s.log)
      && forall w: Writer :: LoggedBy(s.log, w) + StillWaiting(s, w) == AskedOf(steps, w)
  {
    hide LineBytes;
    var s := Run(steps).value;
    RunIsSafe(steps);
    assert s.file + [] == s.file;
    forall w: Writer
      ensures LoggedBy(s.log, w) + StillWaiting(s, w) == AskedOf(steps, w)
    {
      NothingLost(steps, w);
    }
  }

  /** So a reader that comes while the lock is free gets exactly the surviving
      appends, when no writer dies right after another one did. */
  lemma ReaderSeesSurvivors(steps: seq<Step>)
    requires Run(steps).Some? && Run(steps).value.holder.None?
    requires AllRecordable(Run(steps).value.log)
    requires Separated(Appends(Run(steps).value.log), false)
    ensures ReadBytes(Run(steps).value.file) == Survivors(Appends(Run(steps).value.log), None)
  {
    hide Recordable, LineBytes, ReadBytes, Survivors;
    FileIsGrantsInOrder(steps);
    LinesAreFile(Run(steps).value.log);
    ReadsSurvivors(Appends(Run(steps).value.log));
  }

  predicate CrashFree(steps: seq<Step>) {
    forall i | 0 <= i < |steps| :: !steps[i].Die?
  }

  lemma {:induction false} CrashFreeIsWhole(steps: seq<Step>)
    requires Run(steps).Some? && CrashFree(steps)
    ensures forall i | 0 <= i < |Run(steps).value.log| :: Run(steps).value.log[i].a.Whole?
  {
    hide LineBytes, WriteAt;
    if steps != [] {
      CrashFreeIsWhole(steps[..|steps| - 1]);
    }
  }

  /** In a run without crashes a reader gets every append that held the lock, in
      lock order: none lost, none overwritten, none mixed with another. */
  lemma WholeLinesInLockOrder(steps: seq<Step>)
    requires Run(steps).Some? && Run(steps).value.holder.None? && CrashFree(steps)
    requires AllRecordable(Run(steps).value.log)
    ensures var s := Run(steps).value;
      ReadBytes(s.file) == seq(|s.log|, i requires 0 <= i < |s.log| => Payload(s.log[i].a.m))
  {
    hide Recordable, LineBytes, ReadBytes, Payload, Survivors;
    var log := Run(steps).value.log;
    var ms := seq(|log|, i requires 0 <= i < |log| => log[i].a.m);
    CrashFreeIsWhole(steps);
    assert Appends(log) == AllWhole(ms);
    WholeSurvive(ms);
    ReaderSeesSurvivors(steps);
  }

  /******* Progress *******/

  function Then(s: Option<State>, step: Step): Option<State> {
    if s.None? then None else Next(s.value, step)
  }

  /** A writer that waits for a free lock gets its line out: whatever part the first
      write takes, the steps of the append are enabled, and the file has grown by the
      line. */
  lemma AppendGoesThrough(s: State, w: Writer, n: nat)
    requires s.holder.None? && PhaseOf(s, w).Waiting? && 0 < n < |LineBytes(PhaseOf(s, w).m)|
    ensures
      var line := LineBytes(PhaseOf(s, w).m);
      var half := Then(Then(Then(Some(s), Acquire(w)), Seek(w)), Write(w, n));
      var t := Then(Then(Then(half, Seek(w)), Write(w, |line| - n)), Release(w));
      && t.Some? && t.value.file == s.file + line && t.value.holder.None? && PhaseOf(t.value, w) == Idle
      && t.value.log == s.log + [Grant(w, Whole(PhaseOf(s, w).m))]
  {
    hide LineBytes;
    var line := LineBytes(PhaseOf(s, w).m);
    var s1 := Next(s, Acquire(w)).value;
    var s2 := Next(s1, Seek(w)).value;
    var s3 := Next(s2, Write(w, n)).value;
    assert s3.file == s.file + line[..n];
    var s4 := Next(s3, Seek(w)).value;
    var s5 := Next(s4, Write(w, |line| - n)).value;
    assert line[n..][..|line| - n] == line[n..] && line[n..][|line| - n..] == [];
    assert s5.file == s.file + line[..n] + line[n..];
    assert line[..n] + line[n..] == line;
  }

  /** The holder of the lock can always go on without dying. */
  lemma HolderMovesOn(s: State, w: Writer)
    requires HoldsLock(PhaseOf(s, w)) && (PhaseOf(s, w).Seeked? ==> PhaseOf(s, w).rest != [])
    ensures Next(s, Seek(w)).Some? || Next(s, Write(w, 1)).Some? || Next(s, Release(w)).Some?
  {
  }

  /** A holder that dies leaves what it has written and frees the lock, and its append
      is from then on a torn one, cut where it stopped. */
  lemma DeathFreesTheLock(s: State, w: Writer)
    requires Safe(s) && s.holder == Some(w) && Unwritten(s) != []
    ensures Next(s, Die(w)).Some?
    ensures var t, g := Next(s, Die(w)).value, s.log[|s.log| - 1];
      && t.file == s.file && t.holder.None? && PhaseOf(t, w) == Idle
      && t.log == s.log[..|s.log| - 1]
                  + [Grant(g.w, Torn(g.a.m, |LineBytes(g.a.m)| - |Unwritten(s)|))]
  {
    hide LineBytes, Lines, TearsAreProper;
    HoldsIff(s, w);
  }

  lemma HoldsIff(s: State, w: Writer)
    requires Exclusive(s)
    ensures HoldsLock(PhaseOf(s, w)) <==> s.holder == Some(w)
  {
  }

  /** An idle writer can always ask, and then waits until the lock is free. */
  lemma WriterWaits(s: State, w: Writer, m: Message)
    requires PhaseOf(s, w) == Idle
    ensures var t := Next(s, Begin(w, m));
      && t.Some? && PhaseOf(t.value, w) == Waiting(m) && t.value.file == s.file && t.value.log == s.log
      && (s.holder.Some? ==> Next(t.value, Retry(w)) == t && Next(t.value, Acquire(w)).None?)
      && (s.holder.None? ==> Next(t.value, Acquire(w)).Some?)
  {
    hide LineBytes;
  }
}
