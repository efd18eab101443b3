/** Dropping assistant turns with unanswered tool calls (src/agent/run_agent.py:221-272). */
module ToolCalls {
  import opened Unicode
  import opened Json
  import opened AgentMessages

  /** A tool result in a user message answers the string id it names. */
  predicate Answers(m: Message, id: Text) {
    m.UserMessage? && exists b <- BlocksOf(m) :: b.ToolResult? && b.toolUseId == Name(id)
  }

  predicate Answered(ms: seq<Message>, id: Text) {
    exists m <- ms :: Answers(m, id)
  }

  predicate Calls(m: Message, id: Text) {
    m.AssistantMessage? && exists b <- BlocksOf(m) :: b.ToolUse? && b.id == Name(id)
  }

  /** Every call of `m` is answered, and by a result whose id is not empty. */
  ghost predicate Kept(m: Message, ms: seq<Message>) {
    forall id: Text | Calls(m, id) :: id != [] && Answered(ms, id)
  }

  ghost function Select(ms: seq<Message>, context: seq<Message>): seq<Message> {
    if ms == [] then []
    else
      var before := Select(ms[..|ms| - 1], context);
      if Kept(ms[|ms| - 1], context) then before + [ms[|ms| - 1]] else before
  }

  ghost function Filtered(ms: seq<Message>): seq<Message> {
    Select(ms, ms)
  }

  method CollectAnswered(messages: seq<Message>) returns (ids: set<Text>)
    ensures forall id: Text :: id in ids <==> id != [] && Answered(messages, id)
  {
    ids := {};
    for i := 0 to |messages|
      invariant forall id: Text :: id in ids <==> id != [] && Answered(messages[..i], id)
    {
      var m := messages[i];
      ghost var were := ids;
      if m.UserMessage? && m.content.Blocks? {
        var blocks := m.content.blocks;
        for j := 0 to |blocks|
          invariant forall id: Text :: id in ids <==>
            id in were || (id != [] && exists b <- blocks[..j] :: b.ToolResult? && b.toolUseId == Name(id))
        {
          var b := blocks[j];
          if b.ToolResult? && b.toolUseId.Name? && b.toolUseId.name != [] {
            ids := ids + {b.toolUseId.name};
          }
          assert blocks[..j + 1] == blocks[..j] + [b];
        }
        assert blocks[..|blocks|] == blocks;
      }
      assert messages[..i + 1] == messages[..i] + [m];
      assert forall id: Text :: Answered(messages[..i + 1], id) <==> Answered(messages[..i], id) || Answers(m, id);
    }
    assert messages[..|messages|] == messages;
  }

  method HasIncompleteCall(m: Message, ids: set<Text>) returns (incomplete: bool)
    ensures incomplete <==> exists id: Text :: Calls(m, id) && id !in ids
  {
    incomplete := false;
    if m.AssistantMessage? && m.content.Blocks? {
      var blocks := m.content.blocks;
      for j := 0 to |blocks|
        invariant forall b <- blocks[..j] :: b.ToolUse? && b.id.Name? ==> b.id.name in ids
      {
        var b := blocks[j];
        if b.ToolUse? && b.id.Name? && b.id.name !in ids {
          assert Calls(m, b.id.name);
          return true;
        }
        assert blocks[..j + 1] == blocks[..j] + [b];
      }
      assert blocks[..|blocks|] == blocks;
    }
  }

  method FilterIncompleteToolCalls(messages: seq<Message>) returns (filtered: seq<Message>)
    ensures filtered == Filtered(messages)
  {
    var ids := CollectAnswered(messages);
    filtered := [];
    for i := 0 to |messages|
      invariant filtered == Select(messages[..i], messages)
    {
      var incomplete := HasIncompleteCall(messages[i], ids);
      assert messages[..i + 1][..i] == messages[..i];
      if !incomplete {
        filtered := filtered + [messages[i]];
      }
    }
    assert messages[..|messages|] == messages;
  }

  /******* The largest complete sublist *******/

  /** `ys` is `xs` with some messages left out. */
  predicate Sublist(ys: seq<Message>, xs: seq<Message>) {
    if ys == [] then true
    else if xs == [] then false
    else
      || (ys[|ys| - 1] == xs[|xs| - 1] && Sublist(ys[..|ys| - 1], xs[..|xs| - 1]))
      || Sublist(ys, xs[..|xs| - 1])
  }

  /** Every string id an assistant calls has a user result in the same list. */
  ghost predicate Complete(ms: seq<Message>) {
    forall m <- ms, id: Text | Calls(m, id) :: Answered(ms, id)
  }

  ghost predicate NoEmptyIds(ms: seq<Message>) {
    forall m <- ms :: !Calls(m, [])
  }

  lemma {:induction false} SelectHolds(ms: seq<Message>, context: seq<Message>)
    ensures forall m :: m in Select(ms, context) <==> m in ms && Kept(m, context)
    ensures Sublist(Select(ms, context), ms)
  {
    hide Kept;
    if ms != [] {
      SelectHolds(ms[..|ms| - 1], context);
      assert ms == ms[..|ms| - 1] + [ms[|ms| - 1]];
    }
  }

  /** User messages all stay, so nothing becomes unanswered by filtering. */
  lemma StillAnswered(ms: seq<Message>, id: Text)
    ensures Answered(Filtered(ms), id) <==> Answered(ms, id)
  {
    hide Select;
    SelectHolds(ms, ms);
    if Answered(ms, id) {
      var m :| m in ms && Answers(m, id);
      assert Kept(m, ms);
    }
  }

  lemma FilteredIsComplete(ms: seq<Message>)
    ensures Complete(Filtered(ms)) && NoEmptyIds(Filtered(ms)) && Sublist(Filtered(ms), ms)
  {
    hide Select, Answered, Calls;
    SelectHolds(ms, ms);
    forall m <- Filtered(ms), id: Text | Calls(m, id)
      ensures id != [] && Answered(Filtered(ms), id)
    {
      assert Kept(m, ms);
      StillAnswered(ms, id);
    }
  }

  lemma {:induction false} SublistMembers(ys: seq<Message>, xs: seq<Message>)
    requires Sublist(ys, xs)
    ensures forall m <- ys :: m in xs
  {
    if ys != [] {
      assert ys == ys[..|ys| - 1] + [ys[|ys| - 1]];
      if ys[|ys| - 1] == xs[|xs| - 1] && Sublist(ys[..|ys| - 1], xs[..|xs| - 1]) {
        SublistMembers(ys[..|ys| - 1], xs[..|xs| - 1]);
      } else {
        SublistMembers(ys, xs[..|xs| - 1]);
      }
    }
  }

  lemma {:induction false} SublistSkips(ys: seq<Message>, xs: seq<Message>, x: Message)
    requires Sublist(ys, xs)
    ensures Sublist(ys, xs + [x]) && Sublist(ys + [x], xs + [x])
  {
    assert (xs + [x])[..|xs|] == xs && (ys + [x])[..|ys|] == ys;
  }

  lemma {:induction false} SelectContains(ys: seq<Message>, xs: seq<Message>, context: seq<Message>)
    requires Sublist(ys, xs) && forall m <- ys :: Kept(m, context)
    ensures Sublist(ys, Select(xs, context))
  {
    hide Kept;
    if ys != [] {
      var y, x := ys[|ys| - 1], xs[|xs| - 1];
      var before := Select(xs[..|xs| - 1], context);
      if y == x && Sublist(ys[..|ys| - 1], xs[..|xs| - 1]) {
        SelectContains(ys[..|ys| - 1], xs[..|xs| - 1], context);
        assert ys == ys[..|ys| - 1] + [y];
        SublistSkips(ys[..|ys| - 1], before, x);
      } else {
        SelectContains(ys, xs[..|xs| - 1], context);
        SublistSkips(ys, before, x);
      }
    }
  }

  /** The filter returns the largest order-preserving sublist in which every tool
      call is answered and none has an empty id. */
  lemma FilteredIsLargest(ms: seq<Message>, ys: seq<Message>)
    requires Sublist(ys, ms) && Complete(ys) && NoEmptyIds(ys)
    ensures Sublist(ys, Filtered(ms))
  {
    SublistMembers(ys, ms);
    forall m <- ys
      ensures Kept(m, ms)
    {
      forall id: Text | Calls(m, id)
        ensures id != [] && Answered(ms, id)
      {
        assert Answered(ys, id);
      }
    }
    SelectContains(ys, ms, ms);
  }

  /** All the user messages, and `m` wherever it occurs. */
  function UsersAnd(ms: seq<Message>, m: Message): seq<Message> {
    if ms == [] then []
    else
      var last := ms[|ms| - 1];
      if last.UserMessage? || last == m then UsersAnd(ms[..|ms| - 1], m) + [last] else UsersAnd(ms[..|ms| - 1], m)
  }

  /** Without the side condition on ids it is the largest complete sublist exactly
      when no turn that calls an empty id has all its calls answered. */
  lemma LargestIff(ms: seq<Message>)
    ensures (forall ys :: Sublist(ys, ms) && Complete(ys) ==> Sublist(ys, Filtered(ms)))
      <==> forall m <- ms :: Calls(m, []) ==> exists id: Text :: Calls(m, id) && !Answered(ms, id)
  {
    hide Select, Calls, Answered, Complete, Sublist;
    if forall m <- ms :: Calls(m, []) ==> exists id: Text :: Calls(m, id) && !Answered(ms, id) {
      forall ys | Sublist(ys, ms) && Complete(ys)
        ensures Sublist(ys, Filtered(ms))
      {
        CompleteHasNoEmptyIds(ms, ys);
        FilteredIsLargest(ms, ys);
      }
    } else {
      var m :| m in ms && Calls(m, []) && forall id: Text | Calls(m, id) :: Answered(ms, id);
      var ys := UsersAnd(ms, m);
      UsersAndIsComplete(ms, m);
      if Sublist(ys, Filtered(ms)) {
        SublistMembers(ys, Filtered(ms));
        FilteredIsComplete(ms);
        assert false;
      }
    }
  }

  lemma CompleteHasNoEmptyIds(ms: seq<Message>, ys: seq<Message>)
    requires Sublist(ys, ms) && Complete(ys)
    requires forall m <- ms :: Calls(m, []) ==> exists id: Text :: Calls(m, id) && !Answered(ms, id)
    ensures NoEmptyIds(ys)
  {
    hide Calls, Sublist;
    SublistMembers(ys, ms);
    forall m <- ys
      ensures !Calls(m, [])
    {
      forall id: Text | Calls(m, id)
        ensures Answered(ms, id)
      {
        assert Answered(ys, id);
      }
    }
  }

  lemma NothingIsSublist(xs: seq<Message>)
    ensures Sublist([], xs)
  {
  }

  lemma {:induction false} UsersAndMembers(ms: seq<Message>, m: Message)
    ensures Sublist(UsersAnd(ms, m), ms)
    ensures forall x :: x in UsersAnd(ms, m) <==> x in ms && (x.UserMessage? || x == m)
  {
    hide Sublist;
    if ms == [] {
      NothingIsSublist(ms);
    } else {
      UsersAndMembers(ms[..|ms| - 1], m);
      assert ms == ms[..|ms| - 1] + [ms[|ms| - 1]];
      SublistSkips(UsersAnd(ms[..|ms| - 1], m), ms[..|ms| - 1], ms[|ms| - 1]);
    }
  }

  lemma UsersAndIsComplete(ms: seq<Message>, m: Message)
    requires m in ms && forall id: Text | Calls(m, id) :: Answered(ms, id)
    ensures Sublist(UsersAnd(ms, m), ms) && Complete(UsersAnd(ms, m)) && m in UsersAnd(ms, m)
  {
    hide Sublist, UsersAnd;
    UsersAndMembers(ms, m);
    forall x <- UsersAnd(ms, m), id: Text | Calls(x, id)
      ensures Answered(UsersAnd(ms, m), id)
    {
      var a :| a in ms && Answers(a, id);
      assert a in UsersAnd(ms, m);
    }
  }

  lemma {:induction false} SelectAll(ms: seq<Message>, context: seq<Message>)
    requires forall m <- ms :: Kept(m, context)
    ensures Select(ms, context) == ms
  {
    hide Kept;
    if ms != [] {
      SelectAll(ms[..|ms| - 1], context);
    }
  }

  lemma Idempotent(ms: seq<Message>)
    ensures Filtered(Filtered(ms)) == Filtered(ms)
  {
    hide Select, Answered, Calls;
    SelectHolds(ms, ms);
    forall m <- Filtered(ms)
      ensures Kept(m, Filtered(ms))
    {
      forall id: Text | Calls(m, id)
        ensures id != [] && Answered(Filtered(ms), id)
      {
        assert Kept(m, ms);
        StillAnswered(ms, id);
      }
    }
    SelectAll(Filtered(ms), Filtered(ms));
  }

  /******* Results without calls *******/

  /** Every answered id is called by some assistant message of the list. */
  ghost predicate NoOrphans(ms: seq<Message>) {
    forall id: Text | Answered(ms, id) :: exists m <- ms :: Calls(m, id)
  }

  /** The filter looks in one direction only: a result loses its call exactly when
      every message that calls it has another call that goes unanswered. */
  lemma OrphansIff(ms: seq<Message>)
    ensures NoOrphans(Filtered(ms))
      <==> forall id: Text | Answered(ms, id) :: exists m <- ms :: Calls(m, id) && Kept(m, ms)
  {
    hide Select, Answered, Calls, Kept;
    SelectHolds(ms, ms);
    forall id: Text
      ensures Answered(Filtered(ms), id) <==> Answered(ms, id)
    {
      StillAnswered(ms, id);
    }
  }

  const A: Text := [0x61]
  const B: Text := [0x62]

  /** One of two parallel calls answered: the turn goes, its result stays. */
  lemma PartlyAnsweredTurnLeavesAnOrphan(input: Json, uuid: Text, extra: Json)
    ensures
      var turn := AssistantMessage(Blocks([ToolUse(Name(A), [], input), ToolUse(Name(B), [], input)]), uuid, extra);
      var answer := UserMessage(Blocks([ToolResult(Name(A), Null)]), uuid, extra);
      && NoOrphans([turn, answer])
      && Filtered([turn, answer]) == [answer] && !NoOrphans([answer])
  {
    hide NoOrphans;
    var turn := AssistantMessage(Blocks([ToolUse(Name(A), [], input), ToolUse(Name(B), [], input)]), uuid, extra);
    var answer := UserMessage(Blocks([ToolResult(Name(A), Null)]), uuid, extra);
    var ms := [turn, answer];
    TwoMessages(turn, answer, input);
    assert ms[..1] == [turn] && ms[..1][..0] == [];
    assert Select([turn], ms) == [];
    assert Select(ms, ms) == [] + [answer];
  }

  /** A turn that calls an empty id goes although a result answers it, so the list it
      was complete in is not a sublist of what remains. */
  lemma EmptyIdTurnIsDropped(input: Json, uuid: Text, extra: Json)
    ensures
      var turn := AssistantMessage(Blocks([ToolUse(Name([]), [], input)]), uuid, extra);
      var answer := UserMessage(Blocks([ToolResult(Name([]), Null)]), uuid, extra);
      && Complete([turn, answer]) && Filtered([turn, answer]) == [answer]
      && !Sublist([turn, answer], Filtered([turn, answer]))
  {
    hide Complete;
    var turn := AssistantMessage(Blocks([ToolUse(Name([]), [], input)]), uuid, extra);
    var answer := UserMessage(Blocks([ToolResult(Name([]), Null)]), uuid, extra);
    var ms := [turn, answer];
    EmptyIdTurn(turn, answer, input);
    assert ms[..1] == [turn] && ms[..1][..0] == [];
    assert Select([turn], ms) == [];
    assert Select(ms, ms) == [] + [answer];
    if Sublist(ms, [answer]) {
      SublistMembers(ms, [answer]);
      assert false;
    }
  }

  lemma EmptyIdTurn(turn: Message, answer: Message, input: Json)
    requires turn.AssistantMessage? && turn.content == Blocks([ToolUse(Name([]), [], input)])
    requires answer.UserMessage? && answer.content == Blocks([ToolResult(Name([]), Null)])
    ensures !Kept(turn, [turn, answer]) && Kept(answer, [turn, answer]) && Complete([turn, answer])
    ensures turn in [turn, answer] && turn !in [answer]
  {
    assert ToolUse(Name([]), [], input) in BlocksOf(turn) && Calls(turn, []);
    assert ToolResult(Name([]), Null) in BlocksOf(answer) && Answers(answer, []);
    assert answer in [turn, answer] && Answered([turn, answer], []);
  }

  lemma TwoMessages(turn: Message, answer: Message, input: Json)
    requires turn.AssistantMessage?
    requires turn.content == Blocks([ToolUse(Name(A), [], input), ToolUse(Name(B), [], input)])
    requires answer.UserMessage? && answer.content == Blocks([ToolResult(Name(A), Null)])
    ensures !Kept(turn, [turn, answer]) && Kept(answer, [turn, answer])
    ensures NoOrphans([turn, answer]) && !NoOrphans([answer])
  {
    var use := ToolUse(Name(B), [], input);
    assert use in BlocksOf(turn) && Calls(turn, B);
    assert !Answered([turn, answer], B);
    assert ToolUse(Name(A), [], input) in BlocksOf(turn) && Calls(turn, A);
    assert ToolResult(Name(A), Null) in BlocksOf(answer) && Answers(answer, A);
    assert Answered([answer], A);
    forall id: Text | Answered([turn, answer], id)
      ensures exists m <- [turn, answer] :: Calls(m, id)
    {
      assert Answers(answer, id);
      assert turn in [turn, answer];
    }
  }
}
