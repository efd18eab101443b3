/** Recording API usage from many threads (src/cost_tracker.py:32-83, with
    src/bootstrap/state.py:604-612): a read-modify-write of the per-model usage and
    of the total, under one re-entrant lock. */
module CostTracker {
  import opened Json

  type Thread = nat

  datatype Usage = Usage(input: int, output: int, cacheCreation: int, cacheRead: int, cost: real)

  const ZERO := Usage(0, 0, 0, 0, 0.0)

  function Add(a: Usage, b: Usage): Usage {
    Usage(a.input + b.input, a.output + b.output, a.cacheCreation + b.cacheCreation,
          a.cacheRead + b.cacheRead, a.cost + b.cost)
  }

  /** The `usage` argument: anything but a dict counts as an empty one, and so
      does a missing, null or zero field. */
  datatype RawUsage =
    | NotADict
    | Dict(subscription: bool, input: Option<int>, output: Option<int>,
           cacheCreation: Option<int>, cacheRead: Option<int>)

  function OrZero(o: Option<int>): int {
    if o.Some? then o.value else 0
  }

  const EMPTY_USAGE := Dict(false, None, None, None, None)

  // The pricing table: the cost of a usage dict for a model.
  type Pricing = (string, RawUsage) -> real

  function Delta(price: Pricing, model: string, raw: RawUsage): Usage {
    var u := if raw.NotADict? then EMPTY_USAGE else raw;
    Usage(OrZero(u.input), OrZero(u.output), OrZero(u.cacheCreation), OrZero(u.cacheRead),
          if u.subscription then 0.0 else price(model, u))
  }

  datatype Call = Call(model: string, delta: Usage)

  datatype Pc =
    | Idle
    | Wants(call: Call)
    | Locked(call: Call)
    | HasRead(call: Call, merged: Usage)
    | Nested(call: Call, merged: Usage)   // inside add_to_total_cost_state
    | Stored(call: Call)                  // model usage written, total not yet
    | Totalled
    | Leaving                             // out of add_to_total_cost_state

  datatype Step =
    | Begin(t: Thread, model: string, raw: RawUsage)
    | Acquire(t: Thread)
    | ReadExisting(t: Thread)
    | StoreUsage(t: Thread)
    | AddTotal(t: Thread)
    | Release(t: Thread)

  datatype World = World(
    usage: map<string, Usage>,
    total: real,
    owner: Option<Thread>,
    depth: nat,
    pcs: map<Thread, Pc>)

  const INITIAL := World(map[], 0.0, None, 0, map[])

  function PcOf(w: World, t: Thread): Pc {
    if t in w.pcs then w.pcs[t] else Idle
  }

  function Go(w: World, t: Thread, pc: Pc): World {
    w.(pcs := w.pcs[t := pc])
  }

  function UsageOf(w: World, model: string): Usage {
    if model in w.usage then w.usage[model] else ZERO
  }

  /** A re-entrant lock: free, or already this thread's. */
  predicate CanAcquire(w: World, t: Thread) {
    w.owner.None? || w.owner == Some(t)
  }

  function Released(w: World): World
    requires w.depth > 0
  {
    w.(depth := w.depth - 1, owner := if w.depth == 1 then None else w.owner)
  }

  function Next(price: Pricing, w: World, step: Step): Option<World> {
    var t := step.t;
    match (step, PcOf(w, t))
    case (Begin(_, model, raw), Idle) => Some(Go(w, t, Wants(Call(model, Delta(price, model, raw)))))
    case (Acquire(_), Wants(call)) =>
      if CanAcquire(w, t) then Some(Go(w, t, Locked(call)).(owner := Some(t), depth := w.depth + 1)) else None
    case (ReadExisting(_), Locked(call)) =>
      Some(Go(w, t, HasRead(call,
        if call.model in w.usage then Add(w.usage[call.model], call.delta) else call.delta)))
    case (Acquire(_), HasRead(call, merged)) =>
      if CanAcquire(w, t) then Some(Go(w, t, Nested(call, merged)).(owner := Some(t), depth := w.depth + 1)) else None
    case (StoreUsage(_), Nested(call, merged)) =>
      Some(Go(w, t, Stored(call)).(usage := w.usage[call.model := merged]))
    case (AddTotal(_), Stored(call)) => Some(Go(w, t, Totalled).(total := w.total + call.delta.cost))
    case (Release(_), Totalled) => if w.depth > 0 then Some(Released(Go(w, t, Leaving))) else None
    case (Release(_), Leaving) => if w.depth > 0 then Some(Released(Go(w, t, Idle))) else None
    case _ => None
  }

  function Run(price: Pricing, steps: seq<Step>): Option<World> {
    if steps == [] then Some(INITIAL)
    else
      match Run(price, steps[..|steps| - 1])
      case None => None
      case Some(w) => Next(price, w, steps[|steps| - 1])
  }

  /******* Sums over finite sets *******/

  lemma AddSwaps(a: Usage, b: Usage, c: Usage)
    ensures Add(a, Add(b, c)) == Add(b, Add(a, c))
  {
  }

  ghost function Sum<K>(ks: set<K>, f: K -> Usage): Usage {
    if ks == {} then ZERO
    else
      var k :| k in ks;
      Add(f(k), Sum(ks - {k}, f))
  }

  lemma {:induction false} SumPick<K>(ks: set<K>, f: K -> Usage, k: K)
    requires k in ks
    ensures Sum(ks, f) == Add(f(k), Sum(ks - {k}, f))
    decreases |ks|
  {
    var j :| j in ks && Sum(ks, f) == Add(f(j), Sum(ks - {j}, f));
    if j != k {
      SumPick(ks - {j}, f, k);
      SumPick(ks - {k}, f, j);
      assert ks - {j} - {k} == ks - {k} - {j};
      AddSwaps(f(j), f(k), Sum(ks - {j} - {k}, f));
    }
  }

  lemma {:induction false} SumSame<K>(ks: set<K>, f: K -> Usage, g: K -> Usage)
    requires forall k <- ks :: f(k) == g(k)
    ensures Sum(ks, f) == Sum(ks, g)
    decreases |ks|
  {
    if ks != {} {
      var k :| k in ks;
      SumPick(ks, f, k);
      SumPick(ks, g, k);
      SumSame(ks - {k}, f, g);
    }
  }

  /** Changing one summand, which may be new. */
  lemma SumChanges<K>(ks: set<K>, f: K -> Usage, g: K -> Usage, k: K)
    requires forall j <- ks :: j != k ==> f(j) == g(j)
    requires k !in ks ==> f(k) == ZERO
    ensures Add(Sum(ks + {k}, g), f(k)) == Add(Sum(ks, f), g(k))
  {
    hide Sum;
    SumPick(ks + {k}, g, k);
    assert ks + {k} - {k} == ks - {k};
    SumSame(ks - {k}, f, g);
    if k in ks {
      SumPick(ks, f, k);
    } else {
      assert ks - {k} == ks;
    }
  }

  lemma {:induction false} SumZero<K>(ks: set<K>, f: K -> Usage)
    requires forall k <- ks :: f(k) == ZERO
    ensures Sum(ks, f) == ZERO
    decreases |ks|
  {
    if ks != {} {
      var k :| k in ks;
      SumPick(ks, f, k);
      SumZero(ks - {k}, f);
    }
  }

  /******* Nothing is lost *******/

  /** What a thread has begun to record for `model` and not yet stored. */
  function InFlight(pc: Pc, model: string): Usage {
    match pc
    case Wants(call) => if call.model == model then call.delta else ZERO
    case Locked(call) => if call.model == model then call.delta else ZERO
    case HasRead(call, _) => if call.model == model then call.delta else ZERO
    case Nested(call, _) => if call.model == model then call.delta else ZERO
    case _ => ZERO
  }

  ghost function InFlightOf(w: World, model: string): Thread -> Usage {
    (t: Thread) => InFlight(PcOf(w, t), model)
  }

  ghost function Outstanding(w: World, model: string): Usage {
    Sum(w.pcs.Keys, InFlightOf(w, model))
  }

  /** Everything that callers asked to record for `model`. */
  function Requested(price: Pricing, steps: seq<Step>, model: string): Usage {
    if steps == [] then ZERO
    else
      var last := steps[|steps| - 1];
      Add(Requested(price, steps[..|steps| - 1], model),
          if last.Begin? && last.model == model then Delta(price, model, last.raw) else ZERO)
  }

  ghost function UsageBy(w: World): string -> Usage {
    m => UsageOf(w, m)
  }

  /** The sum of the per-model entries; its cost is the sum of the costs. */
  ghost function AllUsage(w: World): Usage {
    Sum(w.usage.Keys, UsageBy(w))
  }

  predicate Inside(pc: Pc) {
    !pc.Idle? && !pc.Wants?
  }

  function DepthOf(pc: Pc): nat {
    match pc
    case Idle => 0
    case Wants(_) => 0
    case Locked(_) => 1
    case HasRead(_, _) => 1
    case Leaving => 1
    case _ => 2
  }

  function OwnerPc(w: World): Pc {
    if w.owner.Some? then PcOf(w, w.owner.value) else Idle
  }

  /** What the owner will still add to the total. */
  function NotTotalled(pc: Pc): real {
    if pc.Stored? then pc.call.delta.cost else 0.0
  }

  /** The owner's merged usage is still up to date. */
  predicate MergeIsFresh(w: World, pc: Pc) {
    pc.HasRead? || pc.Nested? ==> pc.merged == Add(UsageOf(w, pc.call.model), pc.call.delta)
  }

  ghost predicate Exclusive(w: World) {
    forall t: Thread :: Inside(PcOf(w, t)) <==> w.owner == Some(t)
  }

  ghost predicate Safe(w: World) {
    && Exclusive(w) && w.depth == DepthOf(OwnerPc(w)) && MergeIsFresh(w, OwnerPc(w))
    && AllUsage(w).cost == w.total + NotTotalled(OwnerPc(w))
  }

  lemma AddZero(u: Usage)
    ensures Add(ZERO, u) == u && Add(u, ZERO) == u
  {
  }

  lemma StepIsExclusive(price: Pricing, w: World, step: Step)
    requires Exclusive(w) && w.depth == DepthOf(OwnerPc(w)) && Next(price, w, step).Some?
    ensures Exclusive(Next(price, w, step).value)
    ensures Next(price, w, step).value.depth == DepthOf(OwnerPc(Next(price, w, step).value))
    ensures !step.Begin? && PcOf(w, step.t) != Idle && !PcOf(w, step.t).Wants? ==> w.owner == Some(step.t)
  {
    hide Delta;
    var n := Next(price, w, step).value;
    assert Inside(PcOf(w, step.t)) <==> w.owner == Some(step.t);
    forall t: Thread
      ensures Inside(PcOf(n, t)) <==> n.owner == Some(t)
    {
      assert Inside(PcOf(w, t)) <==> w.owner == Some(t);
      assert t != step.t ==> PcOf(n, t) == PcOf(w, t);
    }
  }

  lemma StepIsSafe(price: Pricing, w: World, step: Step)
    requires Safe(w) && Next(price, w, step).Some?
    ensures Safe(Next(price, w, step).value)
  {
    hide Delta, Sum, Exclusive;
    var n := Next(price, w, step).value;
    StepIsExclusive(price, w, step);
    if step.StoreUsage? {
      var call := PcOf(w, step.t).call;
      SumChanges(w.usage.Keys, UsageBy(w), UsageBy(n), call.model);
      assert n.usage.Keys == w.usage.Keys + {call.model};
    } else {
      SumSame(w.usage.Keys, UsageBy(w), UsageBy(n));
    }
  }

  /** One thread's own share: what it stores leaves its in-flight usage. */
  lemma StepMovesOneThread(price: Pricing, w: World, step: Step, model: string)
    requires Safe(w) && Next(price, w, step).Some?
    ensures var n := Next(price, w, step).value;
      && n.pcs.Keys == w.pcs.Keys + {step.t}
      && Add(UsageOf(n, model), InFlight(PcOf(n, step.t), model))
         == Add(Add(UsageOf(w, model), InFlight(PcOf(w, step.t), model)),
                if step.Begin? && step.model == model then Delta(price, model, step.raw) else ZERO)
  {
    hide Delta, AllUsage, Exclusive, Add;
    StepIsExclusive(price, w, step);
    AddZero(UsageOf(w, model));
    AddZero(Add(UsageOf(w, model), InFlight(PcOf(w, step.t), model)));
  }

  lemma OthersUnmoved(price: Pricing, w: World, step: Step)
    requires Next(price, w, step).Some?
    ensures forall t: Thread :: t != step.t ==> PcOf(Next(price, w, step).value, t) == PcOf(w, t)
  {
    hide Delta;
  }

  lemma Balances(a: Usage, a': Usage, i: Usage, i': Usage, o: Usage, o': Usage, d: Usage)
    requires Add(a', i') == Add(Add(a, i), d)
    requires Add(o', i) == Add(o, i')
    ensures Add(a', o') == Add(Add(a, o), d)
  {
  }

  lemma StepLosesNothing(price: Pricing, w: World, step: Step, model: string)
    requires Safe(w) && Next(price, w, step).Some?
    ensures var n := Next(price, w, step).value;
      Add(UsageOf(n, model), Outstanding(n, model))
      == Add(Add(UsageOf(w, model), Outstanding(w, model)),
             if step.Begin? && step.model == model then Delta(price, model, step.raw) else ZERO)
  {
    hide Next, Delta, Sum, Safe, UsageOf, Add;
    var n := Next(price, w, step).value;
    StepMovesOneThread(price, w, step, model);
    OthersUnmoved(price, w, step);
    SumChanges(w.pcs.Keys, InFlightOf(w, model), InFlightOf(n, model), step.t);
    Balances(UsageOf(w, model), UsageOf(n, model), InFlight(PcOf(w, step.t), model), InFlight(PcOf(n, step.t), model),
             Outstanding(w, model), Outstanding(n, model),
             if step.Begin? && step.model == model then Delta(price, model, step.raw) else ZERO);
  }

  lemma InitialIsSafe(w: World)
    requires w.usage == map[] && w.pcs == map[] && w.owner.None? && w.depth == 0 && w.total == 0.0
    ensures Safe(w)
  {
    assert forall t: Thread :: PcOf(w, t) == Idle;
    assert AllUsage(w) == ZERO;
  }

  lemma InitialIsEmpty(w: World, model: string)
    requires w.usage == map[] && w.pcs == map[]
    ensures Add(UsageOf(w, model), Outstanding(w, model)) == ZERO
  {
    hide InFlightOf, Add, Sum;
    assert w.pcs.Keys == {};
    SumZero(w.pcs.Keys, InFlightOf(w, model));
    AddZero(ZERO);
  }

  lemma {:induction false} RunIsSafe(price: Pricing, steps: seq<Step>)
    requires Run(price, steps).Some?
    ensures Safe(Run(price, steps).value)
  {
    hide Next, Safe;
    if steps == [] {
      InitialIsSafe(INITIAL);
    } else {
      RunIsSafe(price, steps[..|steps| - 1]);
      StepIsSafe(price, Run(price, steps[..|steps| - 1]).value, steps[|steps| - 1]);
    }
  }

  lemma {:induction false} RunLosesNothing(price: Pricing, steps: seq<Step>, model: string)
    requires Run(price, steps).Some?
    ensures var w := Run(price, steps).value;
      Add(UsageOf(w, model), Outstanding(w, model)) == Requested(price, steps, model)
  {
    hide Next, Safe, UsageOf, Outstanding, Delta;
    if steps == [] {
      InitialIsEmpty(INITIAL, model);
    } else {
      RunLosesNothing(price, steps[..|steps| - 1], model);
      RunIsSafe(price, steps[..|steps| - 1]);
      StepLosesNothing(price, Run(price, steps[..|steps| - 1]).value, steps[|steps| - 1], model);
    }
  }

  lemma AtRest(w: World)
    requires Safe(w) && forall t: Thread :: PcOf(w, t) == Idle
    ensures w.owner.None? && w.total == AllUsage(w).cost
  {
    hide AllUsage;
    assert w.owner.Some? ==> Inside(PcOf(w, w.owner.value));
  }

  lemma NothingOutstanding(w: World, model: string)
    requires forall t: Thread :: PcOf(w, t) == Idle
    ensures Outstanding(w, model) == ZERO
  {
    SumZero(w.pcs.Keys, InFlightOf(w, model));
  }

  /** However the threads interleave: once every call has returned, each model's
      entry is the sum of what was recorded for it, and the total is the sum of
      the entries' costs. */
  lemma NoLostUpdates(price: Pricing, steps: seq<Step>)
    requires Run(price, steps).Some?
    requires forall t: Thread :: PcOf(Run(price, steps).value, t) == Idle
    ensures var w := Run(price, steps).value;
      && w.owner.None? && w.total == AllUsage(w).cost
      && forall model :: UsageOf(w, model) == Requested(price, steps, model)
  {
    hide Run, AllUsage, Requested, UsageOf;
    var w := Run(price, steps).value;
    RunIsSafe(price, steps);
    AtRest(w);
    forall model
      ensures UsageOf(w, model) == Requested(price, steps, model)
    {
      RunLosesNothing(price, steps, model);
      NothingOutstanding(w, model);
      AddZero(UsageOf(w, model));
    }
  }

  /** The step a thread in the middle of a call takes next. */
  function Onward(t: Thread, pc: Pc): Step
    requires !pc.Idle?
  {
    match pc
    case Wants(_) => Acquire(t)
    case Locked(_) => ReadExisting(t)
    case HasRead(_, _) => Acquire(t)
    case Nested(_, _) => StoreUsage(t)
    case Stored(_) => AddTotal(t)
    case _ => Release(t)
  }

  /** The lock is re-entrant, so the nested acquire cannot block its own holder:
      in every reachable state either the holder can move on, or the lock is free
      and every waiting thread can take it. */
  lemma NeverDeadlocks(price: Pricing, steps: seq<Step>, t: Thread)
    requires Run(price, steps).Some?
    requires !PcOf(Run(price, steps).value, t).Idle?
    ensures var w := Run(price, steps).value;
      var mover := if w.owner.Some? then w.owner.value else t;
      !PcOf(w, mover).Idle? && Next(price, w, Onward(mover, PcOf(w, mover))).Some?
  {
    hide Run, AllUsage, Delta;
    var w := Run(price, steps).value;
    RunIsSafe(price, steps);
    var mover := if w.owner.Some? then w.owner.value else t;
    assert Inside(PcOf(w, mover)) <==> w.owner == Some(mover);
  }

  /******* One call *******/

  /** Each field of the usage goes to the column of its name; a subscription is free. */
  lemma DeltaColumns(price: Pricing, model: string, subscription: bool, input: int, output: int,
                     cacheCreation: int, cacheRead: int)
    ensures var raw := Dict(subscription, Some(input), Some(output), Some(cacheCreation), Some(cacheRead));
      Delta(price, model, raw)
      == Usage(input, output, cacheCreation, cacheRead, if subscription then 0.0 else price(model, raw))
    ensures var none := Dict(false, None, None, None, None);
      Delta(price, model, NotADict) == Delta(price, model, none) == Usage(0, 0, 0, 0, price(model, none))
  {
  }

  function Then(price: Pricing, w: Option<World>, step: Step): Option<World> {
    if w.None? then None else Next(price, w.value, step)
  }

  function CallOf(price: Pricing, w: World, t: Thread, model: string, raw: RawUsage): Option<World> {
    var read := Then(price, Then(price, Then(price, Some(w), Begin(t, model, raw)), Acquire(t)), ReadExisting(t));
    var added := Then(price, Then(price, Then(price, read, Acquire(t)), StoreUsage(t)), AddTotal(t));
    Then(price, Then(price, added, Release(t)), Release(t))
  }

  /** A call that finds the lock free goes through, adds its usage to the model's and
      its cost to the total, touches no other model and gives the lock back. */
  lemma CallGoesThrough(price: Pricing, w: World, t: Thread, model: string, raw: RawUsage)
    requires w.owner.None? && w.depth == 0 && PcOf(w, t).Idle?
    ensures CallOf(price, w, t, model, raw).Some?
    ensures var n, delta := CallOf(price, w, t, model, raw).value, Delta(price, model, raw);
      && n.usage == w.usage[model := Add(UsageOf(w, model), delta)] && n.total == w.total + delta.cost
      && n.owner.None? && n.depth == 0 && PcOf(n, t).Idle?
  {
    hide Delta, Add;
    AddZero(Delta(price, model, raw));
    var w1 := Next(price, w, Begin(t, model, raw)).value;
    var w2 := Next(price, w1, Acquire(t)).value;
    var w3 := Next(price, w2, ReadExisting(t)).value;
    var w4 := Next(price, w3, Acquire(t)).value;
    var w5 := Next(price, w4, StoreUsage(t)).value;
    var w6 := Next(price, w5, AddTotal(t)).value;
    var w7 := Next(price, w6, Release(t)).value;
    var w8 := Next(price, w7, Release(t)).value;
  }
}
