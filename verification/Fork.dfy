/** The message pair a forked child starts from (src/agent/fork_subagent.py:101-128,
    131-169, 172-253), and what the context filter does to it. */
module Fork {
  import opened Unicode
  import opened Json
  import opened AgentMessages
  import ToolCalls

  const OPEN_TAG: Text := Ascii("<fork-boilerplate>")
  const CLOSE_TAG: Text := Ascii("</fork-boilerplate>")
  const DIRECTIVE_PREFIX: Text := Ascii("Your directive: ")
  const PLACEHOLDER: Text := Ascii("Fork started ") + [0x2014] + Ascii(" processing in background")

  /** `rules` is the fixed wording between the tags. */
  function Preamble(rules: Text): Text {
    OPEN_TAG + [LF] + rules + CLOSE_TAG + [LF, LF] + DIRECTIVE_PREFIX
  }

  function ChildText(rules: Text, directive: Text): Text {
    Preamble(rules) + directive
  }

  function ToolUses(blocks: seq<Block>): seq<Block> {
    if blocks == [] then []
    else
      var last := blocks[|blocks| - 1];
      if last.ToolUse? then ToolUses(blocks[..|blocks| - 1]) + [last] else ToolUses(blocks[..|blocks| - 1])
  }

  function Shown(id: Id): Text {
    if id.Name? then id.name else id.shown
  }

  function PlaceholderFor(use: Block): Block
    requires use.ToolUse?
  {
    ToolResult(Name(Shown(use.id)), Str(PLACEHOLDER))
  }

  function Placeholders(blocks: seq<Block>): seq<Block> {
    if blocks == [] then []
    else
      var last := blocks[|blocks| - 1];
      var before := Placeholders(blocks[..|blocks| - 1]);
      if last.ToolUse? then before + [PlaceholderFor(last)] else before
  }

  /** What a fork draws from outside: fresh uuids and the user message's other fields. */
  datatype Stamp = Stamp(cloneUuid: Text, userUuid: Text, userExtra: Json)

  /** The same message under a new uuid. */
  function Clone(m: Message, uuid: Text): Message
    requires m.AssistantMessage?
  {
    AssistantMessage(m.content, uuid, m.extra)
  }

  function Forked(rules: Text, directive: Text, parent: Option<Message>, stamp: Stamp): seq<Message>
    requires parent.Some? ==> parent.value.AssistantMessage?
  {
    var text := TextBlock(ChildText(rules, directive));
    if parent.None? || ToolUses(BlocksOf(parent.value)) == [] then
      [UserMessage(Blocks([text]), stamp.userUuid, stamp.userExtra)]
    else
      [Clone(parent.value, stamp.cloneUuid),
       UserMessage(Blocks(Placeholders(BlocksOf(parent.value)) + [text]), stamp.userUuid, stamp.userExtra)]
  }

  method CollectToolUseBlocks(content: Content) returns (uses: seq<Block>)
    ensures uses == if content.Blocks? then ToolUses(content.blocks) else []
    ensures forall u <- uses :: u.ToolUse?
  {
    uses := [];
    if content.Blocks? {
      var blocks := content.blocks;
      for i := 0 to |blocks|
        invariant uses == ToolUses(blocks[..i]) && forall u <- uses :: u.ToolUse?
      {
        assert blocks[..i + 1][..i] == blocks[..i];
        if blocks[i].ToolUse? {
          uses := uses + [blocks[i]];
        }
      }
      assert blocks[..|blocks|] == blocks;
    }
  }

  /** One placeholder per tool use, in order. */
  lemma {:induction false} PlaceholdersAt(blocks: seq<Block>)
    ensures |Placeholders(blocks)| == |ToolUses(blocks)|
    ensures forall i :: 0 <= i < |ToolUses(blocks)| ==>
      ToolUses(blocks)[i].ToolUse? && Placeholders(blocks)[i] == PlaceholderFor(ToolUses(blocks)[i])
  {
    if blocks != [] {
      PlaceholdersAt(blocks[..|blocks| - 1]);
    }
  }

  method BuildForkedMessages(rules: Text, directive: Text, parent: Option<Message>, stamp: Stamp)
    returns (messages: seq<Message>)
    requires parent.Some? ==> parent.value.AssistantMessage?
    ensures messages == Forked(rules, directive, parent, stamp)
  {
    var text := TextBlock(ChildText(rules, directive));
    var alone := [UserMessage(Blocks([text]), stamp.userUuid, stamp.userExtra)];
    if parent.None? {
      return alone;
    }
    var content := parent.value.content;
    var uses := CollectToolUseBlocks(content);
    if uses == [] {
      return alone;
    }
    var cloned: seq<Block> := [];
    for i := 0 to |content.blocks|
      invariant cloned == content.blocks[..i]
    {
      cloned := cloned + [content.blocks[i]];
    }
    var results: seq<Block> := [];
    PlaceholdersAt(content.blocks);
    for i := 0 to |uses|
      invariant results == Placeholders(content.blocks)[..i]
    {
      results := results + [ToolResult(Name(Shown(uses[i].id)), Str(PLACEHOLDER))];
    }
    assert cloned == content.blocks && results == Placeholders(content.blocks);
    return [AssistantMessage(Blocks(cloned), stamp.cloneUuid, parent.value.extra),
            UserMessage(Blocks(results + [text]), stamp.userUuid, stamp.userExtra)];
  }

  /******* Shared prefixes *******/

  /** What the API sees of a message. */
  datatype ApiMessage = ApiMessage(user: bool, content: Content)

  function Api(m: Message): ApiMessage
    requires !m.OtherMessage?
  {
    ApiMessage(m.UserMessage?, m.content)
  }

  /** Two children of one parent: the same request but for the last text block, and
      there the same up to the directive, so the requests are equal only for equal
      directives. */
  lemma PairsAgree(rules: Text, d: Text, e: Text, parent: Option<Message>, s: Stamp, t: Stamp)
    requires parent.Some? ==> parent.value.AssistantMessage?
    ensures
      var a, b := Forked(rules, d, parent, s), Forked(rules, e, parent, t);
      var n := |a| - 1;
      && |a| == |b| && (forall i :: 0 <= i <= n ==> !a[i].OtherMessage? && !b[i].OtherMessage?)
      && (forall i :: 0 <= i < n ==> Api(a[i]) == Api(b[i]))
      && Api(a[n]).user && Api(b[n]).user
      && (var x, y := BlocksOf(a[n]), BlocksOf(b[n]);
          && |x| == |y| >= 1 && x[..|x| - 1] == y[..|x| - 1]
          && x[|x| - 1] == TextBlock(Preamble(rules) + d) && y[|x| - 1] == TextBlock(Preamble(rules) + e)
          && (x == y <==> d == e))
  {
    hide Placeholders, ToolUses;
    var pre := Preamble(rules);
    assert (pre + d)[|pre|..] == d && (pre + e)[|pre|..] == e;
    if parent.Some? {
      var shared := Placeholders(BlocksOf(parent.value));
      assert (shared + [TextBlock(pre + d)])[..|shared|] == shared;
      assert (shared + [TextBlock(pre + e)])[..|shared|] == shared;
    }
  }

  /******* Through the context filter *******/

  lemma {:induction false} PlaceholdersAnswer(blocks: seq<Block>)
    ensures forall b <- blocks :: b.ToolUse? ==> PlaceholderFor(b) in Placeholders(blocks)
  {
    if blocks != [] {
      PlaceholdersAnswer(blocks[..|blocks| - 1]);
      assert blocks == blocks[..|blocks| - 1] + [blocks[|blocks| - 1]];
    }
  }

  lemma PairIsAnswered(rules: Text, directive: Text, parent: Message, stamp: Stamp, id: Text)
    requires parent.AssistantMessage? && ToolUses(BlocksOf(parent)) != []
    requires ToolCalls.Calls(parent, id)
    ensures ToolCalls.Answers(Forked(rules, directive, Some(parent), stamp)[1], id)
  {
    hide Placeholders, ToolUses, ChildText;
    PlaceholdersAnswer(BlocksOf(parent));
    var b :| b in BlocksOf(parent) && b.ToolUse? && b.id == Name(id);
    var user := Forked(rules, directive, Some(parent), stamp)[1];
    assert PlaceholderFor(b) in BlocksOf(user);
  }

  /** The filter keeps a trailing pair whole exactly when the parent calls no tool
      with an empty id; the user message stays in any case. */
  lemma TrailingPairIsKept(context: seq<Message>, rules: Text, directive: Text, parent: Message, stamp: Stamp)
    requires parent.AssistantMessage? && ToolUses(BlocksOf(parent)) != []
    ensures
      var pair := Forked(rules, directive, Some(parent), stamp);
      var kept := ToolCalls.Filtered(context + pair);
      && |kept| >= 1 && kept[|kept| - 1] == pair[1]
      && ((|kept| >= 2 && kept[|kept| - 2] == pair[0]) <==> !ToolCalls.Calls(parent, []))
  {
    hide ToolCalls.Calls, ToolCalls.Answers, Placeholders, ToolUses, ChildText;
    var pair := Forked(rules, directive, Some(parent), stamp);
    var all := context + pair;
    SelectTwo(all, context, pair);
    CloneCallsTheSame(parent, stamp.cloneUuid);
    forall id: Text | ToolCalls.Calls(pair[0], id)
      ensures ToolCalls.Answered(all, id)
    {
      PairIsAnswered(rules, directive, parent, stamp, id);
      assert pair[1] in all;
    }
    CallsOnlyByAssistants(pair[1]);
    ToolCalls.SelectHolds(context, all);
  }

  lemma SelectTwo(all: seq<Message>, context: seq<Message>, pair: seq<Message>)
    requires |pair| == 2
    ensures
      var before := ToolCalls.Select(context, all);
      var middle := if ToolCalls.Kept(pair[0], all) then before + [pair[0]] else before;
      ToolCalls.Select(context + pair, all) == if ToolCalls.Kept(pair[1], all) then middle + [pair[1]] else middle
  {
    hide ToolCalls.Kept;
    var both := context + pair;
    assert both[..|both| - 1] == context + [pair[0]] && (context + [pair[0]])[..|context|] == context;
  }

  lemma CallsOnlyByAssistants(m: Message)
    requires !m.AssistantMessage?
    ensures forall id: Text :: !ToolCalls.Calls(m, id)
  {
  }

  lemma CloneCallsTheSame(parent: Message, uuid: Text)
    requires parent.AssistantMessage?
    ensures forall id: Text :: ToolCalls.Calls(Clone(parent, uuid), id) <==> ToolCalls.Calls(parent, id)
  {
    assert BlocksOf(Clone(parent, uuid)) == BlocksOf(parent);
  }

  /******* The recursion guard *******/

  predicate FoundAt(text: Text, needle: Text, i: nat) {
    i + |needle| <= |text| && text[i..i + |needle|] == needle
  }

  predicate Contains(text: Text, needle: Text) {
    exists i: nat | i <= |text| :: FoundAt(text, needle, i)
  }

  predicate ShowsTag(b: Block) {
    b.TextBlock? && Contains(b.text, OPEN_TAG)
  }

  predicate InForkChild(messages: seq<Message>) {
    exists m <- messages :: m.UserMessage? && exists b <- BlocksOf(m) :: ShowsTag(b)
  }

  method IsInForkChild(messages: seq<Message>) returns (found: bool)
    ensures found <==> InForkChild(messages)
  {
    hide ShowsTag;
    for i := 0 to |messages|
      invariant !InForkChild(messages[..i])
    {
      var m := messages[i];
      if m.UserMessage? && m.content.Blocks? {
        var blocks := m.content.blocks;
        for j := 0 to |blocks|
          invariant forall b <- blocks[..j] :: !ShowsTag(b)
        {
          if ShowsTag(blocks[j]) {
            return true;
          }
          assert blocks[..j + 1] == blocks[..j] + [blocks[j]];
        }
        assert blocks[..|blocks|] == blocks;
      }
      assert messages[..i + 1] == messages[..i] + [m];
    }
    assert messages[..|messages|] == messages;
    return false;
  }

  /** A conversation in which no user text holds the bracket that opens a tag is not
      taken for a forked one. */
  lemma NoTagNoFork(messages: seq<Message>)
    requires forall m <- messages :: m.UserMessage? ==>
      forall b <- BlocksOf(m) :: b.TextBlock? ==> 0x3C !in b.text
    ensures !InForkChild(messages)
  {
    forall m <- messages, b <- BlocksOf(m) | m.UserMessage? && b.TextBlock?
      ensures !Contains(b.text, OPEN_TAG)
    {
      forall i: nat | i <= |b.text|
        ensures !FoundAt(b.text, OPEN_TAG, i)
      {
        if i + |OPEN_TAG| <= |b.text| {
          assert OPEN_TAG[0] == 0x3C && b.text[i..i + |OPEN_TAG|][0] == b.text[i];
        }
      }
    }
  }

  /** Whatever the filter drops, a forked child's context still shows that it is one. */
  lemma ForkIsRecognised(context: seq<Message>, rules: Text, directive: Text, parent: Option<Message>, stamp: Stamp)
    requires parent.Some? ==> parent.value.AssistantMessage?
    ensures InForkChild(ToolCalls.Filtered(context + Forked(rules, directive, parent, stamp)))
  {
    hide ToolUses, Placeholders, ToolCalls.Select;
    var forked := Forked(rules, directive, parent, stamp);
    var user := forked[|forked| - 1];
    var text := TextBlock(ChildText(rules, directive));
    assert ShowsTag(text) by {
      assert FoundAt(text.text, OPEN_TAG, 0);
    }
    assert BlocksOf(user)[|BlocksOf(user)| - 1] == text && text in BlocksOf(user);
    ToolCalls.SelectHolds(context + forked, context + forked);
    assert user in context + forked;
    CallsOnlyByAssistants(user);
    assert ToolCalls.Kept(user, context + forked);
  }

  /******* The pair itself *******/

  /** The clone is the parent but for its uuid, and the user message holds a placeholder
      for each of its calls, in order, and then the child's text. */
  lemma ForkedShape(rules: Text, directive: Text, blocks: seq<Block>, uuid: Text, extra: Json, stamp: Stamp)
    requires exists b <- blocks :: b.ToolUse?
    ensures var pair := Forked(rules, directive, Some(AssistantMessage(Blocks(blocks), uuid, extra)), stamp);
      && |pair| == 2 && pair[0] == AssistantMessage(Blocks(blocks), stamp.cloneUuid, extra)
      && pair[1] == UserMessage(Blocks(Placeholders(blocks)
           + [TextBlock(OPEN_TAG + [LF] + rules + CLOSE_TAG + [LF, LF] + DIRECTIVE_PREFIX + directive)]),
           stamp.userUuid, stamp.userExtra)
  {
    hide Placeholders;
    var b :| b in blocks && b.ToolUse?;
    HasToolUse(blocks, b);
  }

  lemma {:induction false} HasToolUse(blocks: seq<Block>, b: Block)
    requires b in blocks && b.ToolUse?
    ensures b in ToolUses(blocks)
  {
    if b != blocks[|blocks| - 1] {
      HasToolUse(blocks[..|blocks| - 1], b);
    }
  }

  /** Placeholders follow the order of the calls. */
  lemma {:induction false} PlaceholdersConcat(a: seq<Block>, b: seq<Block>)
    ensures Placeholders(a + b) == Placeholders(a) + Placeholders(b)
  {
    hide PlaceholderFor;
    if b == [] {
      assert a + b == a;
    } else {
      assert (a + b)[..|a + b| - 1] == a + b[..|b| - 1];
      PlaceholdersConcat(a, b[..|b| - 1]);
    }
  }

  /** Each carries its call's id, and the same text; other blocks have none. */
  lemma PlaceholderOne(b: Block)
    ensures Placeholders([b]) ==
      match b
      case ToolUse(Name(name), _, _) => [ToolResult(Name(name), Str(PLACEHOLDER))]
      case ToolUse(NotText(shown), _, _) => [ToolResult(Name(shown), Str(PLACEHOLDER))]
      case _ => []
  {
    assert [b][..0] == [];
  }
}
