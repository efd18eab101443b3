/** Pairing tool results with the steps that issued their calls
    (eval/harbor/clawcodex_agent.py:1345-1385, 1395-1423, 1453-1581). */
module Trajectory {
  import opened Unicode
  import opened Json

  /******* What the two logs hold *******/

  // An absent id is falsy, like an empty one, and is written [] here.
  datatype ToolUse = ToolUse(id: Text, toolUseId: Text, name: Text, input: Json)

  datatype ToolResult = ToolResult(toolUseId: Text, content: Option<Json>, isError: bool)

  datatype Block =
    | TextBlock(text: Option<Text>)
    | ReasoningBlock(thinking: Option<Text>, text: Option<Text>)
    | UseBlock(use: ToolUse)
    | ResultBlock(result: ToolResult)
    | OtherBlock

  datatype Content = Plain(text: Text) | Blocks(blocks: seq<Block>) | NoContent

  datatype Role = Assistant | User | OtherRole

  datatype Message = Message(role: Role, isMeta: bool, content: Content)

  datatype Event =
    | UseEvent(use: ToolUse)          // only its toolUseId, name and input are read
    | ResultEvent(result: ToolResult)
    | AssistantEvent(text: Option<Text>)
    | OtherEvent

  /******* What a trajectory holds *******/

  datatype Source = Agent | Human

  datatype ToolCall = ToolCall(id: Text, name: Text, arguments: Json)

  datatype Observed = Observed(call: Text, content: Option<Text>, isError: bool)

  datatype Header = Header(source: Source, message: Text, reasoning: Option<Text>, calls: seq<ToolCall>)

  datatype StepView = StepView(id: nat, header: Header, observation: Option<seq<Observed>>)

  class Step {
    var stepId: nat
    var header: Header
    var observation: Option<seq<Observed>>

    constructor (stepId: nat, header: Header)
      ensures View() == StepView(stepId, header, None)
    {
      this.stepId, this.header, this.observation := stepId, header, None;
    }

    function View(): StepView
      reads this
    {
      StepView(stepId, header, observation)
    }
  }

  ghost function Views(steps: seq<Step>): (vs: seq<StepView>)
    reads steps
    ensures |vs| == |steps| && forall i :: 0 <= i < |vs| ==> vs[i] == steps[i].View()
  {
    seq(|steps|, i requires 0 <= i < |steps| reads steps => steps[i].View())
  }

  ghost predicate Distinct(steps: seq<Step>) {
    forall i, j :: 0 <= i < j < |steps| ==> steps[i] != steps[j]
  }

  /******* Splitting a message *******/

  /** What `str.strip` removes. */
  predicate IsSpace(c: Code) {
    || 0x09 <= c <= 0x0D || 0x1C <= c <= 0x20 || c == 0x85 || c == 0xA0 || c == 0x1680
    || 0x2000 <= c <= 0x200A || c == 0x2028 || c == 0x2029 || c == 0x202F || c == 0x205F || c == 0x3000
  }

  function Strip(s: Text): Text {
    if s != [] && IsSpace(s[0]) then Strip(s[1..])
    else if s != [] && IsSpace(s[|s| - 1]) then Strip(s[..|s| - 1])
    else s
  }

  /** The non-blank parts, stripped, with an empty line between them. */
  function Join(parts: seq<Text>): Text {
    if parts == [] then []
    else
      var before := Join(parts[..|parts| - 1]);
      var last := Strip(parts[|parts| - 1]);
      if last == [] then before
      else if before == [] then last
      else before + [LF, LF] + last
  }

  function ReasoningOf(b: Block): Option<Text>
    requires b.ReasoningBlock?
  {
    if b.thinking.Some? && b.thinking.value != [] then b.thinking else b.text
  }

  datatype Split = Split(texts: seq<Text>, reasonings: seq<Text>, uses: seq<ToolUse>, results: seq<ToolResult>)

  function Sorted(b: Block): Split {
    match b
    case TextBlock(Some(t)) => Split([t], [], [], [])
    case ReasoningBlock(_, _) =>
      (match ReasoningOf(b) case Some(t) => Split([], [t], [], []) case None => Split([], [], [], []))
    case UseBlock(u) => Split([], [], [u], [])
    case ResultBlock(r) => Split([], [], [], [r])
    case _ => Split([], [], [], [])
  }

  function SplitBlocks(blocks: seq<Block>): Split {
    if blocks == [] then Split([], [], [], [])
    else
      var before := SplitBlocks(blocks[..|blocks| - 1]);
      var s := Sorted(blocks[|blocks| - 1]);
      Split(before.texts + s.texts, before.reasonings + s.reasonings, before.uses + s.uses, before.results + s.results)
  }

  function TextOf(m: Message): Text {
    match m.content
    case Plain(t) => Strip(t)
    case Blocks(bs) => Join(SplitBlocks(bs).texts)
    case NoContent => []
  }

  function ThoughtOf(m: Message): Option<Text> {
    if m.content.Blocks? && Join(SplitBlocks(m.content.blocks).reasonings) != []
    then Some(Join(SplitBlocks(m.content.blocks).reasonings)) else None
  }

  function UsesOf(m: Message): seq<ToolUse> {
    if m.content.Blocks? then SplitBlocks(m.content.blocks).uses else []
  }

  function ResultsOf(m: Message): seq<ToolResult> {
    if m.content.Blocks? then SplitBlocks(m.content.blocks).results else []
  }

  lemma SplitNone()
    ensures SplitBlocks([]) == Split([], [], [], [])
  {
  }

  lemma SplitNext(blocks: seq<Block>, i: nat)
    requires i < |blocks|
    ensures var before, s := SplitBlocks(blocks[..i]), Sorted(blocks[i]);
      SplitBlocks(blocks[..i + 1])
      == Split(if s.texts == [] then before.texts else before.texts + s.texts,
               if s.reasonings == [] then before.reasonings else before.reasonings + s.reasonings,
               if s.uses == [] then before.uses else before.uses + s.uses,
               if s.results == [] then before.results else before.results + s.results)
  {
    hide Sorted;
    assert blocks[..i + 1][..i] == blocks[..i];
  }

  method SortBlocks(blocks: seq<Block>)
    returns (texts: seq<Text>, reasonings: seq<Text>, uses: seq<ToolUse>, results: seq<ToolResult>)
    ensures Split(texts, reasonings, uses, results) == SplitBlocks(blocks)
  {
    hide SplitBlocks;
    texts, reasonings, uses, results := [], [], [], [];
    SplitNone();
    assert blocks[..0] == [];
    for i := 0 to |blocks|
      invariant Split(texts, reasonings, uses, results) == SplitBlocks(blocks[..i])
    {
      SplitNext(blocks, i);
      match blocks[i]
      case TextBlock(t) => if t.Some? { texts := texts + [t.value]; }
      case ReasoningBlock(_, _) =>
        var r := ReasoningOf(blocks[i]);
        if r.Some? { reasonings := reasonings + [r.value]; }
      case UseBlock(u) => uses := uses + [u];
      case ResultBlock(r) => results := results + [r];
      case OtherBlock =>
    }
    assert blocks[..|blocks|] == blocks;
  }

  method SplitContent(m: Message)
    returns (text: Text, reasoning: Option<Text>, uses: seq<ToolUse>, results: seq<ToolResult>)
    ensures text == TextOf(m) && reasoning == ThoughtOf(m) && uses == UsesOf(m) && results == ResultsOf(m)
  {
    hide SplitBlocks, Join, Strip;
    if m.content.Plain? {
      return Strip(m.content.text), None, [], [];
    }
    SplitNone();
    var texts: seq<Text>, reasonings: seq<Text> := [], [];
    uses, results := [], [];
    if m.content.Blocks? {
      texts, reasonings, uses, results := SortBlocks(m.content.blocks);
    }
    text := Join(texts);
    var joined := Join(reasonings);
    reasoning := if joined != [] then Some(joined) else None;
    JoinNone();
  }

  lemma JoinNone()
    ensures Join([]) == []
  {
  }

  const INPUT_KEY: Text := [0x69, 0x6E, 0x70, 0x75, 0x74]

  function CallFor(id: Text, u: ToolUse): ToolCall {
    ToolCall(id, u.name, if u.input.Obj? then u.input else Obj([Member(INPUT_KEY, u.input)]))
  }

  /** The first of the two ids that is not empty. */
  function UseId(u: ToolUse): Text {
    if u.id != [] then u.id else u.toolUseId
  }

  function CallsOf(uses: seq<ToolUse>): seq<ToolCall> {
    if uses == [] then []
    else
      var last := uses[|uses| - 1];
      CallsOf(uses[..|uses| - 1]) + (if UseId(last) == [] then [] else [CallFor(UseId(last), last)])
  }

  function Stringify(v: Json): Text {
    if v.Str? then v.s else Print(Style(false, [SPACE]), v)
  }

  function Observe(r: ToolResult): Observed {
    Observed(r.toolUseId, if r.content.Some? then Some(Stringify(r.content.value)) else None, r.isError)
  }

  function ObserveAll(rs: seq<ToolResult>): (os: seq<Observed>)
    ensures |os| == |rs| && forall i :: 0 <= i < |os| ==> os[i] == Observe(rs[i])
  {
    seq(|rs|, i requires 0 <= i < |rs| => Observe(rs[i]))
  }

  /******* What either log says happened *******/

  /** One record of a log: the results it delivers, then the step it opens. */
  datatype Happening = Happening(results: seq<Observed>, opens: Option<Header>)

  const NOTHING := Happening([], None)

  function InConversation(m: Message): Happening {
    if m.isMeta then NOTHING
    else if m.role.Assistant? then
      Happening([], Some(Header(Agent, TextOf(m), ThoughtOf(m), CallsOf(UsesOf(m)))))
    else if m.role.User? then
      Happening(ObserveAll(ResultsOf(m)),
                if TextOf(m) != [] && ResultsOf(m) == [] then Some(Header(Human, TextOf(m), None, [])) else None)
    else NOTHING
  }

  function InStream(e: Event): Happening {
    match e
    case UseEvent(u) =>
      if u.toolUseId == [] then NOTHING
      else Happening([], Some(Header(Agent, [], None, [CallFor(u.toolUseId, u)])))
    case ResultEvent(r) => Happening([Observe(r)], None)
    case AssistantEvent(Some(text)) =>
      if Strip(text) == [] then NOTHING else Happening([], Some(Header(Agent, text, None, [])))
    case _ => NOTHING
  }

  function Conversation(ms: seq<Message>): (hs: seq<Happening>)
    ensures |hs| == |ms| && forall i :: 0 <= i < |hs| ==> hs[i] == InConversation(ms[i])
  {
    seq(|ms|, i requires 0 <= i < |ms| => InConversation(ms[i]))
  }

  function Stream(es: seq<Event>): (hs: seq<Happening>)
    ensures |hs| == |es| && forall i :: 0 <= i < |hs| ==> hs[i] == InStream(es[i])
  {
    seq(|es|, i requires 0 <= i < |es| => InStream(es[i]))
  }

  /** The steps opened, in order. */
  function Opened(hs: seq<Happening>): seq<Header> {
    if hs == [] then []
    else
      var last := hs[|hs| - 1].opens;
      Opened(hs[..|hs| - 1]) + (if last.Some? then [last.value] else [])
  }

  predicate Issues(h: Header, id: Text) {
    exists c <- h.calls :: c.id == id
  }

  /** The position of the latest step that issued `id`. */
  function LatestStep(headers: seq<Header>, id: Text): (p: Option<nat>)
    ensures p.Some? ==> p.value < |headers|
  {
    if headers == [] || id == [] then None
    else if Issues(headers[|headers| - 1], id) then Some(|headers| - 1)
    else LatestStep(headers[..|headers| - 1], id)
  }

  datatype Placement = Placement(step: nat, observed: Observed)

  /** Results delivered when `headers` are open: each goes to the latest step
      that issued its id, or nowhere. */
  function Place(headers: seq<Header>, os: seq<Observed>): seq<Placement> {
    if os == [] then []
    else
      var last := os[|os| - 1];
      Place(headers, os[..|os| - 1])
      + match LatestStep(headers, last.call) case Some(p) => [Placement(p, last)] case None => []
  }

  function Placements(hs: seq<Happening>): seq<Placement> {
    if hs == [] then []
    else
      var before := hs[..|hs| - 1];
      Placements(before) + Place(Opened(before), hs[|hs| - 1].results)
  }

  /** What is placed at step `p`, in order. */
  function At(pls: seq<Placement>, p: nat): seq<Observed> {
    if pls == [] then []
    else
      var last := pls[|pls| - 1];
      At(pls[..|pls| - 1], p) + (if last.step == p then [last.observed] else [])
  }

  // The conversation keeps every result of a step, the stream only the latest.
  datatype Keep = All | Latest

  function Kept(keep: Keep, os: seq<Observed>): Option<seq<Observed>> {
    if os == [] then None
    else if keep.All? then Some(os)
    else Some([os[|os| - 1]])
  }

  /** The trajectory of a log: a step per opening record, numbered from 1, with
      the results placed at it. */
  function Steps(keep: Keep, headers: seq<Header>, pls: seq<Placement>): (vs: seq<StepView>)
    ensures |vs| == |headers|
    ensures forall p :: 0 <= p < |vs| ==> vs[p] == StepView(p + 1, headers[p], Kept(keep, At(pls, p)))
  {
    seq(|headers|, p requires 0 <= p < |headers| => StepView(p + 1, headers[p], Kept(keep, At(pls, p))))
  }

  function Expected(keep: Keep, hs: seq<Happening>): seq<StepView> {
    Steps(keep, Opened(hs), Placements(hs))
  }

  /******* The theory of placements *******/

  lemma {:induction false} LatestStepIsLatest(headers: seq<Header>, id: Text)
    ensures LatestStep(headers, id).None? <==> id == [] || forall p :: 0 <= p < |headers| ==> !Issues(headers[p], id)
    ensures match LatestStep(headers, id)
      case None => true
      case Some(p) => Issues(headers[p], id) && forall q :: p < q < |headers| ==> !Issues(headers[q], id)
  {
    if headers != [] && id != [] && !Issues(headers[|headers| - 1], id) {
      LatestStepIsLatest(headers[..|headers| - 1], id);
    }
  }

  ghost predicate WellPlaced(headers: seq<Header>, pls: seq<Placement>) {
    forall i :: 0 <= i < |pls| ==> pls[i].step < |headers| && Issues(headers[pls[i].step], pls[i].observed.call)
  }

  lemma {:induction false} PlaceIsWellPlaced(headers: seq<Header>, os: seq<Observed>)
    ensures WellPlaced(headers, Place(headers, os))
  {
    hide LatestStep, Issues;
    if os != [] {
      PlaceIsWellPlaced(headers, os[..|os| - 1]);
      LatestStepIsLatest(headers, os[|os| - 1].call);
    }
  }

  lemma {:induction false} PlacementsAreWellPlaced(hs: seq<Happening>)
    ensures WellPlaced(Opened(hs), Placements(hs))
  {
    hide Issues, Place;
    if hs != [] {
      var before := hs[..|hs| - 1];
      PlacementsAreWellPlaced(before);
      PlaceIsWellPlaced(Opened(before), hs[|hs| - 1].results);
      assert Opened(before) <= Opened(hs);
    }
  }

  lemma {:induction false} AtHoldsPlaced(pls: seq<Placement>, p: nat)
    ensures forall o <- At(pls, p) :: Placement(p, o) in pls
  {
    if pls != [] {
      AtHoldsPlaced(pls[..|pls| - 1], p);
    }
  }

  /** Every observation sits on a step that issued its call id. */
  lemma ObservationsAreIssued(keep: Keep, hs: seq<Happening>, p: nat, o: Observed)
    requires p < |Expected(keep, hs)| && Expected(keep, hs)[p].observation.Some?
    requires o in Expected(keep, hs)[p].observation.value
    ensures Issues(Expected(keep, hs)[p].header, o.call)
  {
    hide Issues, Opened, Placements, At;
    var pls := Placements(hs);
    PlacementsAreWellPlaced(hs);
    AtHoldsPlaced(pls, p);
    assert o in At(pls, p);
    var i :| 0 <= i < |pls| && pls[i] == Placement(p, o);
  }

  /** The observations of the first `n` steps, one step after the other. */
  function Together(pls: seq<Placement>, n: nat): seq<Observed> {
    if n == 0 then [] else Together(pls, n - 1) + At(pls, n - 1)
  }

  function Delivered(pls: seq<Placement>): (os: seq<Observed>)
    ensures |os| == |pls| && forall i :: 0 <= i < |os| ==> os[i] == pls[i].observed
  {
    seq(|pls|, i requires 0 <= i < |pls| => pls[i].observed)
  }

  lemma AtGrows(pls: seq<Placement>, pl: Placement, p: nat)
    ensures At(pls + [pl], p) == if pl.step == p then At(pls, p) + [pl.observed] else At(pls, p)
  {
    assert (pls + [pl])[..|pls|] == pls;
  }

  lemma TogetherStep(pls: seq<Placement>, n: nat)
    ensures multiset(Together(pls, n))
         == if n == 0 then multiset{} else multiset(Together(pls, n - 1)) + multiset(At(pls, n - 1))
  {
    hide At;
  }

  lemma {:induction false} TogetherGrows(pls: seq<Placement>, pl: Placement, n: nat)
    ensures multiset(Together(pls + [pl], n))
         == multiset(Together(pls, n)) + (if pl.step < n then multiset{pl.observed} else multiset{})
  {
    hide At, Together;
    TogetherStep(pls, n);
    TogetherStep(pls + [pl], n);
    if n > 0 {
      TogetherGrows(pls, pl, n - 1);
      AtGrows(pls, pl, n - 1);
    }
  }

  /** No result is attached twice and none that can be attached is lost: over all
      steps together the observations are exactly the placed results. */
  lemma {:induction false} EachPlacedOnce(headers: seq<Header>, pls: seq<Placement>)
    requires WellPlaced(headers, pls)
    ensures multiset(Together(pls, |headers|)) == multiset(Delivered(pls))
  {
    hide Together, Issues;
    if pls == [] {
      TogetherOfNothing(|headers|);
    } else {
      var before, last := pls[..|pls| - 1], pls[|pls| - 1];
      EachPlacedOnce(headers, before);
      TogetherGrows(before, last, |headers|);
      assert before + [last] == pls;
      assert Delivered(pls) == Delivered(before) + [last.observed];
    }
  }

  lemma {:induction false} TogetherOfNothing(n: nat)
    ensures Together([], n) == []
  {
    if n > 0 {
      TogetherOfNothing(n - 1);
    }
  }

  /** What one more result does to a step's observation. */
  function Grown(keep: Keep, was: Option<seq<Observed>>, o: Observed): Option<seq<Observed>> {
    if keep.All? && was.Some? then Some(was.value + [o]) else Some([o])
  }

  /** A result placed at a step touches that step only. */
  lemma StepsGrow(keep: Keep, headers: seq<Header>, pls: seq<Placement>, pl: Placement)
    requires pl.step < |headers|
    ensures var before, after := Steps(keep, headers, pls), Steps(keep, headers, pls + [pl]);
      && after[pl.step] == before[pl.step].(observation := Grown(keep, before[pl.step].observation, pl.observed))
      && forall p :: 0 <= p < |headers| && p != pl.step ==> after[p] == before[p]
  {
    hide At;
    forall p: nat | p < |headers|
      ensures At(pls + [pl], p) == if pl.step == p then At(pls, p) + [pl.observed] else At(pls, p)
    {
      AtGrows(pls, pl, p);
    }
    assert [] + [pl.observed] == [pl.observed];
  }

  lemma PlaceNext(headers: seq<Header>, pls: seq<Placement>, os: seq<Observed>, i: nat)
    requires i < |os|
    ensures pls + Place(headers, os[..i + 1])
      == match LatestStep(headers, os[i].call)
         case Some(p) => (pls + Place(headers, os[..i])) + [Placement(p, os[i])]
         case None => pls + Place(headers, os[..i])
  {
    assert os[..i + 1][..i] == os[..i];
  }

  /** A new step holds nothing yet. */
  lemma {:induction false} NothingAhead(headers: seq<Header>, pls: seq<Placement>, p: nat)
    requires WellPlaced(headers, pls) && p >= |headers|
    ensures At(pls, p) == []
  {
    if pls != [] {
      NothingAhead(headers, pls[..|pls| - 1], p);
    }
  }

  lemma StepsExtend(keep: Keep, headers: seq<Header>, pls: seq<Placement>, h: Header)
    requires WellPlaced(headers, pls)
    ensures Steps(keep, headers + [h], pls) == Steps(keep, headers, pls) + [StepView(|headers| + 1, h, None)]
  {
    NothingAhead(headers, pls, |headers|);
  }

  /******* The builders *******/

  /** `pending` maps each id to the latest step that issued it. */
  ghost predicate Tracks(pending: map<Text, Step>, steps: seq<Step>, headers: seq<Header>) {
    && |steps| == |headers|
    && forall id: Text | id != [] ::
         && (id in pending <==> LatestStep(headers, id).Some?)
         && (id in pending ==> pending[id] == steps[LatestStep(headers, id).value])
  }

  lemma TracksMore(pending: map<Text, Step>, steps: seq<Step>, headers: seq<Header>,
                   more: map<Text, Step>, step: Step, h: Header)
    requires Tracks(pending, steps, headers)
    requires forall id: Text | id != [] :: id in more <==> id in pending || Issues(h, id)
    requires forall id: Text | id != [] && id in more :: more[id] == if Issues(h, id) then step else pending[id]
    ensures Tracks(more, steps + [step], headers + [h])
  {
    hide Issues;
    assert (headers + [h])[..|headers|] == headers;
  }

  method CollectCalls(uses: seq<ToolUse>) returns (calls: seq<ToolCall>)
    ensures calls == CallsOf(uses) && forall c <- calls :: c.id != []
  {
    calls := [];
    for i := 0 to |uses|
      invariant calls == CallsOf(uses[..i]) && forall c <- calls :: c.id != []
    {
      assert uses[..i + 1][..i] == uses[..i];
      var id := UseId(uses[i]);
      if id != [] {
        calls := calls + [CallFor(id, uses[i])];
      }
    }
    assert uses[..|uses|] == uses;
  }

  /** The loop that points every call of a step at it. */
  method Point(pending: map<Text, Step>, h: Header, step: Step) returns (more: map<Text, Step>)
    ensures forall id: Text :: id in more <==> id in pending || Issues(h, id)
    ensures forall id: Text | id in more :: more[id] == if Issues(h, id) then step else pending[id]
  {
    more := pending;
    for i := 0 to |h.calls|
      invariant forall id: Text :: id in more <==> id in pending || exists c <- h.calls[..i] :: c.id == id
      invariant forall id: Text | id in more ::
        more[id] == if exists c <- h.calls[..i] :: c.id == id then step else pending[id]
    {
      more := more[h.calls[i].id := step];
      assert h.calls[..i + 1] == h.calls[..i] + [h.calls[i]];
    }
    assert h.calls[..|h.calls|] == h.calls;
  }

  lemma PlaceNothing(headers: seq<Header>)
    ensures Place(headers, []) == []
  {
  }

  lemma NowhereToPlace(headers: seq<Header>, o: Observed, pending: map<Text, Step>, steps: seq<Step>)
    requires Tracks(pending, steps, headers) && (o.call == [] || o.call !in pending)
    ensures LatestStep(headers, o.call).None?
  {
  }

  /** One observation, seen through every reference to the step. */
  method AttachOne(keep: Keep, o: Observed, step: Step, ghost steps: seq<Step>, ghost p: nat)
    requires p < |steps| && steps[p] == step && Distinct(steps)
    modifies step`observation
    ensures step.observation == Grown(keep, old(step.observation), o)
    ensures Views(steps) == old(Views(steps))[p := old(Views(steps))[p].(observation := step.observation)]
  {
    if keep.Latest? || step.observation.None? {
      step.observation := Some([o]);
    } else {
      step.observation := Some(step.observation.value + [o]);
    }
  }

  /** Append a new step and point its calls, if any, at it. */
  method OpenStep(h: Header, steps: seq<Step>, pending: map<Text, Step>, ghost headers: seq<Header>)
    returns (longer: seq<Step>, more: map<Text, Step>)
    requires Tracks(pending, steps, headers) && Distinct(steps)
    ensures |longer| == |steps| + 1 && longer[..|steps|] == steps && fresh(longer[|steps|])
    ensures Views(longer) == Views(steps) + [StepView(|steps| + 1, h, None)]
    ensures Distinct(longer) && Tracks(more, longer, headers + [h])
  {
    hide LatestStep, Issues;
    var step := new Step(|steps| + 1, h);
    more := Point(pending, h, step);
    TracksMore(pending, steps, headers, more, step, h);
    longer := steps + [step];
  }

  /** Attach one record's results to the open steps, through the shared objects. */
  method Attach(keep: Keep, os: seq<Observed>, pending: map<Text, Step>, steps: seq<Step>,
                ghost headers: seq<Header>, ghost pls: seq<Placement>)
    requires Tracks(pending, steps, headers) && Distinct(steps)
    requires Views(steps) == Steps(keep, headers, pls)
    modifies steps
    ensures Views(steps) == Steps(keep, headers, pls + Place(headers, os))
  {
    hide Steps, LatestStep, Place, Grown;
    assert os[..0] == [] && pls + [] == pls;
    PlaceNothing(headers);
    for i := 0 to |os|
      invariant Views(steps) == Steps(keep, headers, pls + Place(headers, os[..i]))
    {
      var o := os[i];
      PlaceNext(headers, pls, os, i);
      if o.call != [] && o.call in pending {
        ghost var p := LatestStep(headers, o.call).value;
        StepsGrow(keep, headers, pls + Place(headers, os[..i]), Placement(p, o));
        AttachOne(keep, o, pending[o.call], steps, p);
      } else {
        NowhereToPlace(headers, o, pending, steps);
      }
    }
    assert os[..|os|] == os;
  }

  /** One more record: its results are placed, then the step it opens is added. */
  lemma ExpectedNext(keep: Keep, hs: seq<Happening>, last: Happening)
    ensures
      var headers, pls := Opened(hs), Placements(hs) + Place(Opened(hs), last.results);
      match last.opens
      case None => Expected(keep, hs + [last]) == Steps(keep, headers, pls) && Opened(hs + [last]) == headers
      case Some(h) =>
        && Expected(keep, hs + [last]) == Steps(keep, headers, pls) + [StepView(|headers| + 1, h, None)]
        && Opened(hs + [last]) == headers + [h]
  {
    hide Place, Steps, WellPlaced;
    assert (hs + [last])[..|hs|] == hs;
    PlacementsAreWellPlaced(hs);
    PlaceIsWellPlaced(Opened(hs), last.results);
    var headers, pls := Opened(hs), Placements(hs) + Place(Opened(hs), last.results);
    assert headers + [] == headers;
    BothWellPlaced(headers, Placements(hs), Place(headers, last.results));
    if last.opens.Some? {
      StepsExtend(keep, headers, pls, last.opens.value);
    }
  }

  lemma BothWellPlaced(headers: seq<Header>, a: seq<Placement>, b: seq<Placement>)
    requires WellPlaced(headers, a) && WellPlaced(headers, b)
    ensures WellPlaced(headers, a + b)
  {
  }

  lemma PlaceNone(headers: seq<Header>, pls: seq<Placement>)
    ensures pls + Place(headers, []) == pls
  {
  }

  /** The state of a builder: one object per step, showing what the log so far says. */
  ghost predicate Shows(keep: Keep, hs: seq<Happening>, steps: seq<Step>, pending: map<Text, Step>)
    reads steps
  {
    Distinct(steps) && Views(steps) == Expected(keep, hs) && Tracks(pending, steps, Opened(hs))
  }

  lemma NothingBuilt(keep: Keep, steps: seq<Step>, pending: map<Text, Step>)
    requires steps == [] && pending == map[]
    ensures Shows(keep, [], steps, pending)
  {
  }

  lemma ShowsViews(keep: Keep, hs: seq<Happening>, steps: seq<Step>, pending: map<Text, Step>)
    requires Shows(keep, hs, steps, pending)
    ensures Distinct(steps) && Views(steps) == Expected(keep, hs)
  {
  }

  method AddMessage(m: Message, steps: seq<Step>, pending: map<Text, Step>, ghost hs: seq<Happening>)
    returns (longer: seq<Step>, more: map<Text, Step>)
    requires Shows(All, hs, steps, pending)
    modifies steps
    ensures Shows(All, hs + [InConversation(m)], longer, more)
    ensures steps <= longer && fresh(longer[|steps|..])
  {
    hide Steps, LatestStep, Tracks, Place, TextOf, ThoughtOf, UsesOf, ResultsOf, Opened, Placements, CallsOf, Issues;
    longer, more := steps, pending;
    ExpectedNext(All, hs, InConversation(m));
    PlaceNone(Opened(hs), Placements(hs));
    if m.isMeta {
      return;
    }
    var text, reasoning, uses, results := SplitContent(m);
    if m.role.Assistant? {
      var calls := CollectCalls(uses);
      longer, more := OpenStep(Header(Agent, text, reasoning, calls), steps, pending, Opened(hs));
    } else if m.role.User? {
      Attach(All, ObserveAll(results), pending, steps, Opened(hs), Placements(hs));
      if text != [] && results == [] {
        longer, more := OpenStep(Header(Human, text, None, []), steps, pending, Opened(hs));
      }
    }
  }

  method StepsFromConversation(messages: seq<Message>) returns (steps: seq<Step>)
    ensures fresh(steps) && Distinct(steps)
    ensures Views(steps) == Expected(All, Conversation(messages))
  {
    hide Shows, Expected;
    var pending: map<Text, Step>;
    steps, pending := [], map[];
    NothingBuilt(All, steps, pending);
    ghost var hs := Conversation(messages);
    assert hs[..0] == [];
    for n := 0 to |messages|
      invariant fresh(steps) && Shows(All, hs[..n], steps, pending)
    {
      assert hs[..n + 1] == hs[..n] + [InConversation(messages[n])];
      ghost var shorter := steps;
      steps, pending := AddMessage(messages[n], steps, pending, hs[..n]);
      assert steps == shorter + steps[|shorter|..];
    }
    assert hs[..|messages|] == hs;
    ShowsViews(All, hs, steps, pending);
  }

  method AddEvent(e: Event, steps: seq<Step>, pending: map<Text, Step>, ghost hs: seq<Happening>)
    returns (longer: seq<Step>, more: map<Text, Step>)
    requires Shows(Latest, hs, steps, pending)
    modifies steps
    ensures Shows(Latest, hs + [InStream(e)], longer, more)
    ensures steps <= longer && fresh(longer[|steps|..])
  {
    hide Steps, LatestStep, Tracks, Place, Strip, CallFor, Opened, Placements, Issues;
    longer, more := steps, pending;
    ExpectedNext(Latest, hs, InStream(e));
    PlaceNone(Opened(hs), Placements(hs));
    match e
    case UseEvent(use) =>
      if use.toolUseId != [] {
        longer, more := OpenStep(Header(Agent, [], None, [CallFor(use.toolUseId, use)]), steps, pending, Opened(hs));
      }
    case ResultEvent(result) =>
      Attach(Latest, [Observe(result)], pending, steps, Opened(hs), Placements(hs));
    case AssistantEvent(text) =>
      if text.Some? && Strip(text.value) != [] {
        longer, more := OpenStep(Header(Agent, text.value, None, []), steps, pending, Opened(hs));
      }
    case OtherEvent =>
  }

  method StepsFromStream(events: seq<Event>) returns (steps: seq<Step>)
    ensures fresh(steps) && Distinct(steps)
    ensures Views(steps) == Expected(Latest, Stream(events))
  {
    hide Shows, Expected;
    var pending: map<Text, Step>;
    steps, pending := [], map[];
    NothingBuilt(Latest, steps, pending);
    ghost var hs := Stream(events);
    assert hs[..0] == [];
    for n := 0 to |events|
      invariant fresh(steps) && Shows(Latest, hs[..n], steps, pending)
    {
      assert hs[..n + 1] == hs[..n] + [InStream(events[n])];
      ghost var shorter := steps;
      steps, pending := AddEvent(events[n], steps, pending, hs[..n]);
      assert steps == shorter + steps[|shorter|..];
    }
    assert hs[..|events|] == hs;
    ShowsViews(Latest, hs, steps, pending);
  }

  /** The captured instruction, when it is a string that is not blank. */
  function InstructionOf(captured: Option<Text>): Option<Header> {
    if captured.Some? && Strip(captured.value) != [] then Some(Header(Human, captured.value, None, [])) else None
  }

  /** Every step one later, after the instruction. */
  function Prepended(vs: seq<StepView>, h: Header): (r: seq<StepView>)
    ensures |r| == |vs| + 1 && r[0] == StepView(1, h, None)
    ensures forall i :: 0 <= i < |vs| ==> r[i + 1] == vs[i].(id := vs[i].id + 1)
  {
    [StepView(1, h, None)] + seq(|vs|, i requires 0 <= i < |vs| => vs[i].(id := vs[i].id + 1))
  }

  /** The event stream, behind the instruction. */
  function StreamTrace(events: seq<Event>, captured: Option<Text>): seq<StepView> {
    var steps := Expected(Latest, Stream(events));
    match InstructionOf(captured) case Some(h) => Prepended(steps, h) case None => steps
  }

  /** The saved conversation when there is one, otherwise the stream. */
  function Trace(messages: Option<seq<Message>>, events: seq<Event>, captured: Option<Text>): seq<StepView> {
    if messages.Some? && messages.value != [] then Expected(All, Conversation(messages.value))
    else StreamTrace(events, captured)
  }

  method Renumber(steps: seq<Step>)
    requires Distinct(steps)
    modifies steps`stepId
    ensures forall j :: 0 <= j < |steps| ==> steps[j].stepId == old(steps[j].stepId) + 1
  {
    for i := 0 to |steps|
      invariant forall j :: 0 <= j < i ==> steps[j].stepId == old(steps[j].stepId) + 1
      invariant forall j :: i <= j < |steps| ==> steps[j].stepId == old(steps[j].stepId)
    {
      steps[i].stepId := steps[i].stepId + 1;
    }
  }

  method Prepend(steps: seq<Step>, h: Header) returns (first: Step)
    requires Distinct(steps)
    modifies steps`stepId
    ensures fresh(first)
    ensures Views([first] + steps) == Prepended(old(Views(steps)), h)
  {
    hide Distinct;
    ghost var were := Views(steps);
    Renumber(steps);
    first := new Step(1, h);
    assert forall j :: 0 <= j < |steps| ==> steps[j].View() == were[j].(id := were[j].id + 1);
    PrependedViews(first, steps, were, h);
  }

  lemma PrependedViews(first: Step, steps: seq<Step>, were: seq<StepView>, h: Header)
    requires |were| == |steps| && first.View() == StepView(1, h, None)
    requires forall j :: 0 <= j < |steps| ==> steps[j].View() == were[j].(id := were[j].id + 1)
    ensures Views([first] + steps) == Prepended(were, h)
  {
    forall j | 0 <= j < |steps| + 1
      ensures Views([first] + steps)[j] == Prepended(were, h)[j]
    {
      if j > 0 {
        assert ([first] + steps)[j] == steps[j - 1];
        assert Prepended(were, h)[(j - 1) + 1] == were[j - 1].(id := were[j - 1].id + 1);
      }
    }
  }

  method StepsFromStreamBehindInstruction(events: seq<Event>, captured: Option<Text>) returns (steps: seq<Step>)
    ensures fresh(steps) && Views(steps) == StreamTrace(events, captured)
  {
    hide Expected, Strip, Prepended, Views, Distinct;
    steps := StepsFromStream(events);
    if captured.Some? && Strip(captured.value) != [] {
      var first := Prepend(steps, Header(Human, captured.value, None, []));
      steps := [first] + steps;
    }
  }

  method BuildTrajectory(messages: Option<seq<Message>>, events: seq<Event>, captured: Option<Text>)
    returns (trajectory: Option<seq<Step>>)
    ensures trajectory.None? <==> Trace(messages, events, captured) == []
    ensures trajectory.Some? ==>
      fresh(trajectory.value) && Views(trajectory.value) == Trace(messages, events, captured)
  {
    hide Expected, StreamTrace;
    var steps: seq<Step>;
    if messages.Some? && messages.value != [] {
      steps := StepsFromConversation(messages.value);
    } else {
      steps := StepsFromStreamBehindInstruction(events, captured);
    }
    trajectory := if steps == [] then None else Some(steps);
  }

  /** Step ids are 1 to n on both paths, whether or not the instruction was prepended. */
  lemma IdsAreConsecutive(messages: Option<seq<Message>>, events: seq<Event>, captured: Option<Text>, i: nat)
    requires i < |Trace(messages, events, captured)|
    ensures Trace(messages, events, captured)[i].id == i + 1
  {
    hide Opened, Placements, Strip;
  }

  /** On either path an observation answers a call of the step it sits on. */
  lemma ObservationsAnswerCalls(messages: Option<seq<Message>>, events: seq<Event>, captured: Option<Text>,
                                i: nat, o: Observed)
    requires i < |Trace(messages, events, captured)|
    requires Trace(messages, events, captured)[i].observation.Some?
    requires o in Trace(messages, events, captured)[i].observation.value
    ensures Issues(Trace(messages, events, captured)[i].header, o.call)
  {
    hide Expected, Strip, Issues;
    if messages.Some? && messages.value != [] {
      ObservationsAreIssued(All, Conversation(messages.value), i, o);
    } else if InstructionOf(captured).None? {
      ObservationsAreIssued(Latest, Stream(events), i, o);
    } else {
      ObservationsAreIssued(Latest, Stream(events), i - 1, o);
    }
  }

  /** The results whose id a step opened before them issued, in log order. */
  function Answers(headers: seq<Header>, os: seq<Observed>): seq<Observed> {
    if os == [] then []
    else
      var last := os[|os| - 1];
      Answers(headers, os[..|os| - 1])
      + if last.call != [] && exists h <- headers :: Issues(h, last.call) then [last] else []
  }

  function Answered(hs: seq<Happening>): seq<Observed> {
    if hs == [] then []
    else
      var before := hs[..|hs| - 1];
      Answered(before) + Answers(Opened(before), hs[|hs| - 1].results)
  }

  lemma {:induction false} PlaceDelivers(headers: seq<Header>, os: seq<Observed>)
    ensures Delivered(Place(headers, os)) == Answers(headers, os)
  {
    hide Issues, LatestStep;
    if os != [] {
      PlaceDelivers(headers, os[..|os| - 1]);
      LatestStepIsLatest(headers, os[|os| - 1].call);
    }
  }

  lemma {:induction false} PlacementsDeliver(hs: seq<Happening>)
    ensures Delivered(Placements(hs)) == Answered(hs)
  {
    hide Answers, Place, Opened;
    if hs != [] {
      var before := hs[..|hs| - 1];
      PlacementsDeliver(before);
      PlaceDelivers(Opened(before), hs[|hs| - 1].results);
    }
  }

  /** On the conversation path every result whose id an earlier assistant turn
      issued is attached exactly once: over all steps together the observations are
      those results, and step `p` holds, in message order, those of which it is the
      latest issuer. */
  lemma ConversationKeepsEveryResult(messages: seq<Message>)
    ensures var hs := Conversation(messages);
      && multiset(Together(Placements(hs), |Opened(hs)|)) == multiset(Answered(hs))
      && forall p :: 0 <= p < |Expected(All, hs)| ==>
           Expected(All, hs)[p].observation
           == if At(Placements(hs), p) == [] then None else Some(At(Placements(hs), p))
  {
    hide Answered, Placements, Together, At, Opened;
    var hs := Conversation(messages);
    PlacementsAreWellPlaced(hs);
    EachPlacedOnce(Opened(hs), Placements(hs));
    PlacementsDeliver(hs);
  }
}
