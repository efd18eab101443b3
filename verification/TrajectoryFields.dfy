/** What the steps of a trajectory show, in terms of the fields of the records they
    come from (eval/harbor/clawcodex_agent.py:1395-1423, 1444-1581). */
module TrajectoryFields {
  import opened Unicode
  import opened Json
  import opened Trajectory

  /******* Texts *******/

  predicate AllSpace(s: Text) {
    forall i :: 0 <= i < |s| ==> IsSpace(s[i])
  }

  /** Stripping takes the space at both ends and nothing else. */
  lemma {:induction false} StripTakesSpace(s: Text) returns (before: Text, after: Text)
    ensures s == before + Strip(s) + after && AllSpace(before) && AllSpace(after)
    ensures Strip(s) != [] ==> !IsSpace(Strip(s)[0]) && !IsSpace(Strip(s)[|Strip(s)| - 1])
  {
    hide IsSpace;
    if s != [] && IsSpace(s[0]) {
      var b, a := StripTakesSpace(s[1..]);
      before, after := [s[0]] + b, a;
      assert s == [s[0]] + s[1..];
      assert s == before + Strip(s) + after;
    } else if s != [] && IsSpace(s[|s| - 1]) {
      var b, a := StripTakesSpace(s[..|s| - 1]);
      before, after := b, a + [s[|s| - 1]];
      assert s == s[..|s| - 1] + [s[|s| - 1]];
      assert s == before + Strip(s) + after;
    } else {
      before, after := [], [];
      assert s == [] + s + [];
    }
  }

  /** Two texts that are not blank stand in their order with an empty line between. */
  function Beside(a: Text, b: Text): Text {
    if a == [] then b else if b == [] then a else a + [LF, LF] + b
  }

  lemma BesideIsAssociative(a: Text, b: Text, c: Text)
    ensures Beside(Beside(a, b), c) == Beside(a, Beside(b, c))
  {
    assert a + [LF, LF] + (b + [LF, LF] + c) == a + [LF, LF] + b + [LF, LF] + c;
  }

  /** The parts are joined in order, each of them stripped. */
  lemma {:induction false} JoinConcat(a: seq<Text>, b: seq<Text>)
    ensures Join(a + b) == Beside(Join(a), Join(b))
    ensures forall t: Text :: Join([t]) == Strip(t)
  {
    hide Strip, Beside;
    forall t: Text
      ensures Join([t]) == Strip(t)
    {
      assert [t][..0] == [];
    }
    if b == [] {
      assert a + b == a;
      BesideNothing(Join(a));
    } else {
      var before, last := b[..|b| - 1], b[|b| - 1];
      assert (a + b)[..|a + b| - 1] == a + before;
      JoinConcat(a, before);
      JoinNext(a + before, last);
      JoinNext(before, last);
      assert a + b == a + before + [last] && b == before + [last];
      BesideIsAssociative(Join(a), Join(before), Strip(last));
    }
  }

  lemma BesideNothing(a: Text)
    ensures Beside(a, []) == a
  {
  }

  lemma JoinNext(parts: seq<Text>, last: Text)
    ensures Join(parts + [last]) == Beside(Join(parts), Strip(last))
  {
    hide Strip;
    assert (parts + [last])[..|parts|] == parts;
  }

  /******* Blocks *******/

  function Both(a: Split, b: Split): Split {
    Split(a.texts + b.texts, a.reasonings + b.reasonings, a.uses + b.uses, a.results + b.results)
  }

  lemma BothIsAssociative(a: Split, b: Split, c: Split)
    ensures Both(Both(a, b), c) == Both(a, Both(b, c))
  {
  }

  /** Blocks are sorted one by one and keep their order. */
  lemma {:induction false} SplitConcat(a: seq<Block>, b: seq<Block>)
    ensures SplitBlocks(a + b) == Both(SplitBlocks(a), SplitBlocks(b))
  {
    hide Sorted;
    if b == [] {
      assert a + b == a;
    } else {
      var before := b[..|b| - 1];
      assert (a + b)[..|a + b| - 1] == a + before;
      SplitConcat(a, before);
      BothIsAssociative(SplitBlocks(a), SplitBlocks(before), Sorted(b[|b| - 1]));
    }
  }

  /** Where each kind of block goes; a reasoning block gives its thinking, or its text
      when the thinking is missing or empty. */
  lemma SplitOne(b: Block)
    ensures SplitBlocks([b]) ==
      match b
      case TextBlock(t) => Split(if t.Some? then [t.value] else [], [], [], [])
      case ReasoningBlock(thinking, text) =>
        Split([], if thinking.Some? && thinking.value != [] then [thinking.value]
                  else if text.Some? then [text.value] else [], [], [])
      case UseBlock(u) => Split([], [], [u], [])
      case ResultBlock(r) => Split([], [], [], [r])
      case OtherBlock => Split([], [], [], [])
  {
    assert [b][..0] == [];
  }

  /******* Calls *******/

  lemma {:induction false} CallsConcat(a: seq<ToolUse>, b: seq<ToolUse>)
    ensures CallsOf(a + b) == CallsOf(a) + CallsOf(b)
  {
    if b == [] {
      assert a + b == a;
    } else {
      assert (a + b)[..|a + b| - 1] == a + b[..|b| - 1];
      CallsConcat(a, b[..|b| - 1]);
    }
  }

  /** The arguments of a call are its input, wrapped when that is not a dict. */
  function ArgumentsOf(input: Json): Json {
    match input
    case Obj(_) => input
    case _ => Obj([Member(Ascii("input"), input)])
  }

  /** A block makes a call under its id, or its other id when that is empty, and none
      when both are. */
  lemma CallsOne(id: Text, otherId: Text, name: Text, input: Json)
    ensures CallsOf([ToolUse(id, otherId, name, input)]) ==
      if id != [] then [ToolCall(id, name, ArgumentsOf(input))]
      else if otherId != [] then [ToolCall(otherId, name, ArgumentsOf(input))]
      else []
  {
    var u := ToolUse(id, otherId, name, input);
    assert [u][..0] == [];
    assert Ascii("input") == INPUT_KEY;
  }

  /******* Observations *******/

  /** `o` shows the result `r`: a string as it is, any other content as its JSON. */
  predicate Reports(o: Observed, r: ToolResult) {
    && o.call == r.toolUseId && o.isError == r.isError
    && match r.content
       case None => o.content.None?
       case Some(Str(s)) => o.content == Some(s)
       case Some(v) => o.content == Some(Print(Style(false, [SPACE]), v))
  }

  lemma MessageResultsAreReported(messages: seq<Message>, i: nat)
    requires i < |messages| && !messages[i].isMeta && messages[i].role.User?
    ensures var rs, os := ResultsOf(messages[i]), Conversation(messages)[i].results;
      |os| == |rs| && forall k :: 0 <= k < |rs| ==> Reports(os[k], rs[k])
  {
    hide ResultsOf, TextOf;
  }

  lemma EventResultIsReported(events: seq<Event>, i: nat)
    requires i < |events| && events[i].ResultEvent?
    ensures var os := Stream(events)[i].results; |os| == 1 && Reports(os[0], events[i].result)
  {
  }

  lemma {:induction false} PlaceHolds(headers: seq<Header>, os: seq<Observed>, k: nat)
    requires k < |os| && LatestStep(headers, os[k].call).Some?
    ensures Placement(LatestStep(headers, os[k].call).value, os[k]) in Place(headers, os)
  {
    hide LatestStep;
    if k < |os| - 1 {
      PlaceHolds(headers, os[..|os| - 1], k);
    }
  }

  lemma {:induction false} PlacementsHold(hs: seq<Happening>, i: nat, pl: Placement)
    requires i < |hs| && pl in Place(Opened(hs[..i]), hs[i].results)
    ensures pl in Placements(hs)
    decreases |hs|
  {
    hide Place, Opened;
    var before := hs[..|hs| - 1];
    if i < |before| {
      assert before[..i] == hs[..i];
      PlacementsHold(before, i, pl);
    }
  }

  lemma {:induction false} AtHolds(pls: seq<Placement>, pl: Placement)
    requires pl in pls
    ensures pl.observed in At(pls, pl.step)
  {
    if pl != pls[|pls| - 1] {
      AtHolds(pls[..|pls| - 1], pl);
    }
  }

  /** What is placed at a step keeps the order of the log. */
  lemma {:induction false} AtConcat(a: seq<Placement>, b: seq<Placement>, p: nat)
    ensures At(a + b, p) == At(a, p) + At(b, p)
  {
    if b == [] {
      assert a + b == a;
    } else {
      assert (a + b)[..|a + b| - 1] == a + b[..|b| - 1];
      AtConcat(a, b[..|b| - 1], p);
    }
  }

  /** On the conversation path each tool result of a user message is shown, with its
      content, by the latest step that issued its id. */
  lemma ResultReachesItsStep(messages: seq<Message>, i: nat, k: nat, p: nat)
    requires i < |messages| && !messages[i].isMeta && messages[i].role.User? && k < |ResultsOf(messages[i])|
    requires LatestStep(Opened(Conversation(messages)[..i]), ResultsOf(messages[i])[k].toolUseId) == Some(p)
    ensures p < |Expected(All, Conversation(messages))|
    ensures var observation := Expected(All, Conversation(messages))[p].observation;
      observation.Some? && exists o <- observation.value :: Reports(o, ResultsOf(messages[i])[k])
  {
    hide ResultsOf, LatestStep, Reports, Place, Opened, At, Placements;
    var hs := Conversation(messages);
    MessageResultsAreReported(messages, i);
    var o := hs[i].results[k];
    CallOf(o, ResultsOf(messages[i])[k]);
    PlaceHolds(Opened(hs[..i]), hs[i].results, k);
    PlacementsHold(hs, i, Placement(p, o));
    AtHolds(Placements(hs), Placement(p, o));
    PlacementsAreWellPlaced(hs);
    var j :| 0 <= j < |Placements(hs)| && Placements(hs)[j] == Placement(p, o);
  }

  lemma CallOf(o: Observed, r: ToolResult)
    requires Reports(o, r)
    ensures o.call == r.toolUseId
  {
  }

  /** Nothing after record `i` is placed at step `p`. */
  ghost predicate NothingLater(hs: seq<Happening>, i: nat, p: nat)
    requires i < |hs|
  {
    forall j, k :: i < j < |hs| && 0 <= k < |hs[j].results| ==>
      LatestStep(Opened(hs[..j]), hs[j].results[k].call) != Some(p)
  }

  lemma {:induction false} PlacedElsewhere(headers: seq<Header>, os: seq<Observed>, p: nat)
    requires forall k :: 0 <= k < |os| ==> LatestStep(headers, os[k].call) != Some(p)
    ensures At(Place(headers, os), p) == []
  {
    hide LatestStep;
    if os != [] {
      var before, last := Place(headers, os[..|os| - 1]), os[|os| - 1];
      PlacedElsewhere(headers, os[..|os| - 1], p);
      match LatestStep(headers, last.call)
      case None => assert before + [] == before;
      case Some(q) => AtGrows(before, Placement(q, last), p);
    }
  }

  lemma PlacedAlone(headers: seq<Header>, o: Observed, p: nat)
    requires LatestStep(headers, o.call) == Some(p)
    ensures Place(headers, [o]) == [Placement(p, o)]
  {
    hide LatestStep;
    assert [o][..0] == [];
  }

  lemma {:induction false} LatestAtStep(hs: seq<Happening>, i: nat, p: nat, o: Observed)
    requires i < |hs| && hs[i].results == [o] && LatestStep(Opened(hs[..i]), o.call) == Some(p)
    requires NothingLater(hs, i, p)
    ensures var os := At(Placements(hs), p); os != [] && os[|os| - 1] == o
    decreases |hs|
  {
    hide Place, Opened, LatestStep, At;
    var before, last := hs[..|hs| - 1], hs[|hs| - 1];
    AtConcat(Placements(before), Place(Opened(before), last.results), p);
    if i == |hs| - 1 {
      PlacedAlone(Opened(before), o, p);
      AtGrows(Placements(before), Placement(p, o), p);
    } else {
      assert before[..i] == hs[..i];
      forall j | i < j < |before|
        ensures before[..j] == hs[..j]
      {
      }
      LatestAtStep(before, i, p, o);
      PlacedElsewhere(Opened(before), last.results, p);
    }
  }

  /** On the stream path a step shows the last result that came for it, and its
      content. */
  lemma LatestResultIsShown(events: seq<Event>, i: nat, p: nat)
    requires i < |events| && events[i].ResultEvent?
    requires LatestStep(Opened(Stream(events)[..i]), events[i].result.toolUseId) == Some(p)
    requires NothingLater(Stream(events), i, p)
    ensures p < |Expected(Latest, Stream(events))|
    ensures var observation := Expected(Latest, Stream(events))[p].observation;
      observation.Some? && |observation.value| == 1 && Reports(observation.value[0], events[i].result)
  {
    hide LatestStep, Reports, Opened, At, Placements, Place, NothingLater;
    var hs := Stream(events);
    EventResultIsReported(events, i);
    var o := hs[i].results[0];
    CallOf(o, events[i].result);
    LatestAtStep(hs, i, p, o);
    PlacementsAreWellPlaced(hs);
    var os := At(Placements(hs), p);
    AtHoldsPlaced(Placements(hs), p);
    assert os[|os| - 1] in os;
    var j :| 0 <= j < |Placements(hs)| && Placements(hs)[j] == Placement(p, o);
  }

  /******* Opened steps *******/

  lemma {:induction false} OpenedConcat(a: seq<Happening>, b: seq<Happening>)
    ensures Opened(a + b) == Opened(a) + Opened(b)
  {
    if b == [] {
      assert a + b == a;
    } else {
      assert (a + b)[..|a + b| - 1] == a + b[..|b| - 1];
      OpenedConcat(a, b[..|b| - 1]);
    }
  }

  /** The step a record opens stands behind those opened before it. */
  lemma OpenedStep(keep: Keep, hs: seq<Happening>, i: nat)
    requires i < |hs| && hs[i].opens.Some?
    ensures var p := |Opened(hs[..i])|;
      p < |Expected(keep, hs)| && Expected(keep, hs)[p].header == hs[i].opens.value
      && Expected(keep, hs)[p].id == p + 1
  {
    hide Opened, Placements;
    var first, rest := hs[..i], hs[i + 1..];
    OpenedConcat(first, [hs[i]]);
    OpenedConcat(first + [hs[i]], rest);
    assert hs == first + [hs[i]] + rest;
    OpenedOne(hs[i]);
  }

  lemma OpenedOne(h: Happening)
    ensures Opened([h]) == if h.opens.Some? then [h.opens.value] else []
  {
    assert [h][..0] == [];
  }

  /** An assistant turn opens a step with its text, its reasoning and its calls. */
  lemma TurnOpensStep(messages: seq<Message>, i: nat)
    requires i < |messages| && !messages[i].isMeta && messages[i].role.Assistant? && messages[i].content.Blocks?
    ensures var p, s := |Opened(Conversation(messages)[..i])|, SplitBlocks(messages[i].content.blocks);
      && p < |Expected(All, Conversation(messages))|
      && var step := Expected(All, Conversation(messages))[p];
         && step.id == p + 1 && step.header.source == Agent && step.header.message == Join(s.texts)
         && step.header.reasoning == (if Join(s.reasonings) == [] then None else Some(Join(s.reasonings)))
         && step.header.calls == CallsOf(s.uses)
  {
    hide Opened, Placements, SplitBlocks, Join, CallsOf;
    OpenedStep(All, Conversation(messages), i);
  }

  /** A turn whose content is a string says that string, stripped, and calls nothing. */
  lemma PlainTurnOpensStep(messages: seq<Message>, i: nat)
    requires i < |messages| && !messages[i].isMeta && messages[i].role.Assistant? && messages[i].content.Plain?
    ensures var p := |Opened(Conversation(messages)[..i])|;
      && p < |Expected(All, Conversation(messages))|
      && Expected(All, Conversation(messages))[p].header
         == Header(Agent, Strip(messages[i].content.text), None, [])
  {
    hide Opened, Placements, Strip;
    OpenedStep(All, Conversation(messages), i);
    assert CallsOf([]) == [];
  }

  /** A user message opens a step exactly when it has text and no tool results; a meta
      message and one of another role change nothing. */
  lemma UserOpensStepIff(messages: seq<Message>, i: nat)
    requires i < |messages| && !messages[i].role.Assistant?
    ensures var h := Conversation(messages)[i];
      && (h.opens.Some? <==> !messages[i].isMeta && messages[i].role.User?
                             && TextOf(messages[i]) != [] && ResultsOf(messages[i]) == [])
      && (h.opens.Some? ==> h.opens.value == Header(Human, TextOf(messages[i]), None, []))
      && (messages[i].isMeta || !messages[i].role.User? ==> h.results == [])
  {
    hide TextOf, ResultsOf;
  }

  /** In the stream a call with an id opens a step of its own, and so does text that
      is not blank, as it is. */
  lemma EventOpensStep(events: seq<Event>, i: nat)
    requires i < |events|
    ensures Stream(events)[i].opens ==
      match events[i]
      case UseEvent(u) =>
        if u.toolUseId == [] then None
        else Some(Header(Agent, [], None, [ToolCall(u.toolUseId, u.name, ArgumentsOf(u.input))]))
      case AssistantEvent(Some(text)) =>
        if AllSpace(text) then None else Some(Header(Agent, text, None, []))
      case _ => None
  {
    hide IsSpace, Strip;
    assert Ascii("input") == INPUT_KEY;
    if events[i].AssistantEvent? && events[i].text.Some? {
      BlankIff(events[i].text.value);
    }
  }

  lemma BlankIff(s: Text)
    ensures Strip(s) == [] <==> AllSpace(s)
  {
    hide IsSpace, Strip;
    var before, after := StripTakesSpace(s);
    if Strip(s) != [] {
      assert s[|before|] == Strip(s)[0];
    } else {
      assert s == before + after;
    }
  }

  /** The instruction opens the stream's trajectory exactly when it is not blank. */
  lemma InstructionOpens(events: seq<Event>, captured: Option<Text>)
    ensures var vs, trace := Expected(Latest, Stream(events)), StreamTrace(events, captured);
      if captured.None? || AllSpace(captured.value) then trace == vs
      else
        && |trace| == |vs| + 1 && trace[0] == StepView(1, Header(Human, captured.value, None, []), None)
        && forall i :: 0 <= i < |vs| ==>
             trace[i + 1].header == vs[i].header && trace[i + 1].observation == vs[i].observation
  {
    hide IsSpace, Strip, Expected;
    if captured.Some? {
      BlankIff(captured.value);
    }
  }
}
