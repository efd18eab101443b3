/** Driving a foreground agent while racing each `next` against the background
    signal (src/agent/foreground_promotion.py:124-205). */
module ForegroundRace {
  import opened Json

  /** How the agent's iterator ends after its last message. */
  datatype Ending = Stops | Raises

  /** What one `__anext__` comes to. */
  datatype Yield<M> = Message(m: M) | Stopped | Failed

  /** What `asyncio.wait` finds ready in one round; it returns only once something
      is.  When the pending `next` of the round is cancelled, `swallowed` says that
      it delivers all the same while it is being drained. */
  datatype Readiness = Readiness(next: bool, signal: bool, swallowed: bool)

  type Round = r: Readiness | r.next || r.signal witness Readiness(true, false, false)

  datatype Outcome<M> =
    | Returned(messages: seq<M>, backgrounded: bool)
    | Raised                      // the iterator's exception
    | StillRunning(messages: seq<M>)

  /******* The objects of the event loop *******/

  datatype Phase = Pending | Finished | Cancelled

  class ChildTask<M> {
    var phase: Phase
    var asked: bool               // `cancel` was called while it was pending
    var outcome: Option<Yield<M>>

    constructor ()
      ensures phase == Pending && !asked && outcome.None?
    {
      phase, asked, outcome := Pending, false, None;
    }

    /** `done()`, which is True of a cancelled task too. */
    predicate Done()
      reads this
    {
      !phase.Pending?
    }

    method Finish(y: Option<Yield<M>>)
      requires !Done()
      modifies this
      ensures phase == Finished && outcome == y
    {
      phase, outcome := Finished, y;
    }

    method Cancel()
      modifies this`asked
      ensures asked == (old(asked) || !Done())
    {
      if phase.Pending? {
        asked := true;
      }
    }

    /** Awaiting a task that nobody asked to stop could block for ever. */
    method AwaitCancelled()
      requires Done() || asked
      modifies this`phase
      ensures phase == if old(Done()) then old(phase) else Cancelled
    {
      if phase.Pending? {
        phase := Cancelled;
      }
    }

    /** `result()`, which is only there once the task has finished. */
    method Result() returns (y: Yield<M>)
      requires phase == Finished && outcome.Some?
      ensures y == outcome.value
    {
      return outcome.value;
    }
  }

  class AgentIterator<M> {
    const items: seq<M>
    const ending: Ending
    var pos: nat

    constructor (items: seq<M>, ending: Ending)
      ensures this.items == items && this.ending == ending && pos == 0
    {
      this.items, this.ending := items, ending;
      pos := 0;
    }

    method Next() returns (y: Yield<M>)
      modifies this
      ensures old(pos) < |items| ==> y == Message(items[old(pos)]) && pos == old(pos) + 1
      ensures old(pos) >= |items| ==> y == (if ending == Stops then Stopped else Failed) && pos == old(pos)
    {
      if pos < |items| {
        y := Message(items[pos]);
        pos := pos + 1;
      } else {
        y := if ending == Stops then Stopped else Failed;
      }
    }
  }

  /** The child tasks one call has created, and its calls of `on_background`. */
  class Loop<M> {
    var tasks: seq<ChildTask<M>>
    var callbacks: nat

    constructor ()
      ensures tasks == [] && callbacks == 0
    {
      tasks, callbacks := [], 0;
    }

    ghost predicate NothingPending()
      reads this, tasks
    {
      forall t <- tasks :: t.Done()
    }

    /** The callback finds the foreground side at rest. */
    method RunCallback()
      requires NothingPending()
      modifies this`callbacks
      ensures callbacks == old(callbacks) + 1
    {
      callbacks := callbacks + 1;
    }
  }

  /** `asyncio.wait(..., FIRST_COMPLETED)`: what is ready finishes and is `done`. */
  method Wait<M>(agent: AgentIterator<M>, nextTask: ChildTask<M>, bgTask: ChildTask<M>, found: Round)
    returns (done: set<ChildTask<M>>)
    requires nextTask != bgTask && !nextTask.Done() && !bgTask.Done()
    modifies agent, nextTask, bgTask
    ensures done == (if found.next then {nextTask} else {}) + if found.signal then {bgTask} else {}
    ensures nextTask.phase == (if found.next then Finished else Pending)
    ensures bgTask.phase == if found.signal then Finished else Pending
    ensures found.next && old(agent.pos) < |agent.items| ==>
      nextTask.outcome == Some(Message(agent.items[old(agent.pos)])) && agent.pos == old(agent.pos) + 1
    ensures found.next && old(agent.pos) >= |agent.items| ==>
      nextTask.outcome == Some(if agent.ending == Stops then Stopped else Failed) && agent.pos == old(agent.pos)
    ensures !found.next ==> agent.pos == old(agent.pos)
  {
    done := {};
    if found.next {
      var y := agent.Next();
      nextTask.Finish(Some(y));
      done := done + {nextTask};
    }
    if found.signal {
      bgTask.Finish(None);
      done := done + {bgTask};
    }
  }

  /** Awaiting the cancelled `next`: it is cancelled, or delivers all the same and
      what it delivers is dropped. */
  method Drain<M>(agent: AgentIterator<M>, nextTask: ChildTask<M>, delivers: bool)
    requires !nextTask.Done() && nextTask.asked
    modifies agent, nextTask
    ensures nextTask.Done()
    ensures agent.pos == old(agent.pos) + if delivers && old(agent.pos) < |agent.items| then 1 else 0
  {
    if delivers {
      var y := agent.Next();
      nextTask.Finish(Some(y));
    } else {
      nextTask.AwaitCancelled();
    }
  }

  /******* The race *******/

  /** The result of the race, from message `pos` on, for a given schedule. */
  function Race<M>(items: seq<M>, ending: Ending, pos: nat, schedule: seq<Round>): Outcome<M>
    requires pos <= |items|
    decreases |schedule|
  {
    if schedule == [] then StillRunning(items[..pos])
    else if schedule[0].signal && !schedule[0].next then Returned(items[..pos], true)
    else if pos < |items| then Race(items, ending, pos + 1, schedule[1..])
    else if ending == Stops then Returned(items, false)
    else Raised
  }

  /** How many messages the race takes from the iterator. */
  function Pulled<M>(items: seq<M>, pos: nat, schedule: seq<Round>): nat
    requires pos <= |items|
    decreases |schedule|
  {
    if schedule == [] then pos
    else if schedule[0].signal && !schedule[0].next then
      pos + if schedule[0].swallowed && pos < |items| then 1 else 0
    else if pos < |items| then Pulled(items, pos + 1, schedule[1..])
    else pos
  }

  lemma RaceStep<M>(items: seq<M>, ending: Ending, pos: nat, schedule: seq<Round>, i: nat)
    requires pos <= |items| && i <= |schedule|
    ensures Race(items, ending, pos, schedule[i..]) ==
      if i == |schedule| then StillRunning(items[..pos])
      else if schedule[i].signal && !schedule[i].next then Returned(items[..pos], true)
      else if pos < |items| then Race(items, ending, pos + 1, schedule[i + 1..])
      else if ending == Stops then Returned(items, false)
      else Raised
    ensures Pulled(items, pos, schedule[i..]) ==
      if i == |schedule| then pos
      else if schedule[i].signal && !schedule[i].next then
        pos + if schedule[i].swallowed && pos < |items| then 1 else 0
      else if pos < |items| then Pulled(items, pos + 1, schedule[i + 1..])
      else pos
  {
    assert i < |schedule| ==> schedule[i..][1..] == schedule[i + 1..];
  }

  /** The branch of the signal: cancel the pending `next`, drain it, call back. */
  method GoToBackground<M>(agent: AgentIterator<M>, loop: Loop<M>, nextTask: ChildTask<M>,
                           hasCallback: bool, swallowed: bool)
    requires !nextTask.Done() && forall t <- loop.tasks :: t != nextTask ==> t.Done()
    modifies agent, nextTask, loop`callbacks
    ensures loop.NothingPending()
    ensures loop.callbacks == old(loop.callbacks) + if hasCallback then 1 else 0
    ensures agent.pos == old(agent.pos) + if swallowed && old(agent.pos) < |agent.items| then 1 else 0
  {
    nextTask.Cancel();
    Drain(agent, nextTask, swallowed);
    if hasCallback {
      loop.RunCallback();
    }
  }

  method RunWithBackgroundEscape<M>(agent: AgentIterator<M>, loop: Loop<M>, hasCallback: bool, schedule: seq<Round>)
    returns (outcome: Outcome<M>)
    requires agent.pos == 0 && loop.tasks == []
    modifies agent, loop
    ensures outcome == Race(agent.items, agent.ending, 0, schedule)
    ensures agent.pos == Pulled(agent.items, 0, schedule)
    ensures !outcome.StillRunning? ==> loop.NothingPending()
    ensures outcome.StillRunning? ==>
      forall i | 0 <= i < |loop.tasks| :: loop.tasks[i].Done() <==> i < |loop.tasks| - 2
    ensures loop.callbacks == old(loop.callbacks)
              + if outcome.Returned? && outcome.backgrounded && hasCallback then 1 else 0
  {
    hide Race, Pulled;
    var messages: seq<M> := [];
    var round := 0;
    assert schedule[0..] == schedule;
    while true
      invariant round <= |schedule| && agent.pos <= |agent.items|
      invariant forall i | 0 <= i < |loop.tasks| :: fresh(loop.tasks[i]) && loop.tasks[i].Done()
      invariant messages == agent.items[..agent.pos]
      invariant loop.callbacks == old(loop.callbacks)
      invariant Race(agent.items, agent.ending, 0, schedule)
             == Race(agent.items, agent.ending, agent.pos, schedule[round..])
      invariant Pulled(agent.items, 0, schedule) == Pulled(agent.items, agent.pos, schedule[round..])
      decreases |schedule| - round
    {
      var nextTask := new ChildTask<M>();
      var bgTask := new ChildTask<M>();
      loop.tasks := loop.tasks + [nextTask, bgTask];
      RaceStep(agent.items, agent.ending, agent.pos, schedule, round);
      if round == |schedule| {
        return StillRunning(messages);
      }
      var done := Wait(agent, nextTask, bgTask, schedule[round]);
      if bgTask in done && nextTask !in done {
        GoToBackground(agent, loop, nextTask, hasCallback, schedule[round].swallowed);
        return Returned(messages, true);
      }
      if !bgTask.Done() {
        bgTask.Cancel();
        bgTask.AwaitCancelled();
      }
      var yielded := nextTask.Result();
      match yielded {
        case Stopped => return Returned(messages, false);
        case Failed => return Raised;
        case Message(m) => messages := messages + [m];
      }
      round := round + 1;
    }
  }

  /******* What the outcome says *******/

  /** The rounds before the first in which `next` was not ready. */
  function NextRounds(schedule: seq<Round>): (n: nat)
    ensures n <= |schedule| && (n < |schedule| ==> schedule[n].signal && !schedule[n].next)
    ensures forall i | 0 <= i < n :: schedule[i].next
  {
    if schedule == [] || !schedule[0].next then 0 else 1 + NextRounds(schedule[1..])
  }

  /** The outcome depends only on how many rounds had a `next` ready before one had
      not: the messages are a prefix of what the iterator yields, and the flag is
      False only when all of them were delivered. */
  lemma {:induction false} RaceOutcome<M>(items: seq<M>, ending: Ending, pos: nat, schedule: seq<Round>)
    requires pos <= |items|
    ensures var n := NextRounds(schedule);
      Race(items, ending, pos, schedule) ==
        if pos + n > |items| then (if ending == Stops then Returned(items, false) else Raised)
        else if n < |schedule| then Returned(items[..pos + n], true)
        else StillRunning(items[..pos + n])
    decreases |schedule|
  {
    if schedule != [] && schedule[0].next && pos < |items| {
      RaceOutcome(items, ending, pos + 1, schedule[1..]);
    }
  }

  lemma {:induction false} NextRoundsAt(schedule: seq<Round>, n: nat)
    requires n <= |schedule| && (forall i | 0 <= i < n :: schedule[i].next)
    requires n < |schedule| ==> !schedule[n].next
    ensures NextRounds(schedule) == n
  {
    if n > 0 {
      NextRoundsAt(schedule[1..], n - 1);
    }
  }

  /** In a round whose `next` is ready the signal makes no difference. */
  lemma SignalTogetherChangesNothing<M>(items: seq<M>, ending: Ending, schedule: seq<Round>, k: nat, other: Round)
    requires k < |schedule| && schedule[k].next && other.next
    ensures Race(items, ending, 0, schedule) == Race(items, ending, 0, schedule[k := other])
    ensures Pulled(items, 0, schedule) == Pulled(items, 0, schedule[k := other])
  {
    var changed := schedule[k := other];
    var n := NextRounds(schedule);
    NextRoundsAt(changed, n);
    RaceOutcome(items, ending, 0, schedule);
    RaceOutcome(items, ending, 0, changed);
    PulledOutcome(items, 0, schedule);
    PulledOutcome(items, 0, changed);
  }

  lemma {:induction false} NextRoundsPast(schedule: seq<Round>, k: nat)
    requires k < |schedule| && forall i | 0 <= i <= k :: schedule[i].next
    ensures NextRounds(schedule) > k
  {
    if k > 0 {
      NextRoundsPast(schedule[1..], k - 1);
    }
  }

  /** So a message that is ready together with the signal is delivered. */
  lemma ReadyTogetherIsDelivered<M>(items: seq<M>, ending: Ending, schedule: seq<Round>, k: nat)
    requires k < |schedule| && k < |items| && schedule[k].signal
    requires forall i | 0 <= i <= k :: schedule[i].next
    ensures match Race(items, ending, 0, schedule)
      case Returned(messages, _) => k < |messages| && messages[k] == items[k]
      case StillRunning(messages) => k < |messages| && messages[k] == items[k]
      case Raised => true
  {
    RaceOutcome(items, ending, 0, schedule);
    NextRoundsPast(schedule, k);
  }

  /******* Messages lost in the transition *******/

  lemma {:induction false} PulledOutcome<M>(items: seq<M>, pos: nat, schedule: seq<Round>)
    requires pos <= |items|
    ensures var n := NextRounds(schedule);
      Pulled(items, pos, schedule) ==
        if pos + n >= |items| then |items|
        else pos + n + if n < |schedule| && schedule[n].swallowed then 1 else 0
    decreases |schedule|
  {
    if schedule != [] && schedule[0].next && pos < |items| {
      PulledOutcome(items, pos + 1, schedule[1..]);
    }
  }

  /** A call that returns has lost a message exactly when the first round without a
      ready `next` comes before the last message and its `next` delivers while it
      is being drained; it never loses more than one. */
  lemma LostIff<M>(items: seq<M>, ending: Ending, schedule: seq<Round>)
    requires Race(items, ending, 0, schedule).Returned?
    ensures var n, messages := NextRounds(schedule), Race(items, ending, 0, schedule).messages;
      && (Pulled(items, 0, schedule) > |messages| <==> n < |schedule| && n < |items| && schedule[n].swallowed)
      && |messages| <= Pulled(items, 0, schedule) <= |messages| + 1
  {
    RaceOutcome(items, ending, 0, schedule);
    PulledOutcome(items, 0, schedule);
  }

  /** The signal alone, and a `next` that delivers while it is drained. */
  lemma MessageCanBeLost<M>(m: M)
    ensures var schedule: seq<Round> := [Readiness(false, true, true)];
      Race([m], Stops, 0, schedule) == Returned([], true) && Pulled([m], 0, schedule) == 1
  {
  }
}
