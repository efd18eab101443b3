/** Merging agent definitions tier by tier, the last one of a type winning
    (src/agent/load_agents_dir.py:46-52, 74-89, 141-152). */
module Agents {
  import opened Unicode
  import opened Json

  // `definition` stands for every field but the type.
  datatype Agent = Agent(agentType: Text, definition: Json)

  predicate Defines(agents: seq<Agent>, t: Text) {
    exists a <- agents :: a.agentType == t
  }

  /** The types in the order of their first definitions. */
  function Types(agents: seq<Agent>): seq<Text> {
    if agents == [] then []
    else
      var before, last := agents[..|agents| - 1], agents[|agents| - 1].agentType;
      if Defines(before, last) then Types(before) else Types(before) + [last]
  }

  /** The last definition of a type. */
  function LastOf(agents: seq<Agent>, t: Text): (a: Agent)
    requires Defines(agents, t)
    ensures a in agents && a.agentType == t
  {
    var last := agents[|agents| - 1];
    assert agents == agents[..|agents| - 1] + [last];
    if last.agentType == t then last else LastOf(agents[..|agents| - 1], t)
  }

  lemma {:induction false} TypesDefined(agents: seq<Agent>)
    ensures forall t :: t in Types(agents) <==> Defines(agents, t)
    ensures forall i, j :: 0 <= i < j < |Types(agents)| ==> Types(agents)[i] != Types(agents)[j]
  {
    if agents != [] {
      TypesDefined(agents[..|agents| - 1]);
      assert agents == agents[..|agents| - 1] + [agents[|agents| - 1]];
    }
  }

  ghost function Active(agents: seq<Agent>): (active: seq<Agent>)
    ensures |active| == |Types(agents)|
    ensures forall i :: 0 <= i < |active| ==>
      Defines(agents, Types(agents)[i]) && active[i] == LastOf(agents, Types(agents)[i])
  {
    TypesDefined(agents);
    assert forall t <- Types(agents) :: Defines(agents, t);
    seq(|Types(agents)|, i requires 0 <= i < |Types(agents)| => LastOf(agents, Types(agents)[i]))
  }

  method GetActiveAgentsFromList(agents: seq<Agent>) returns (active: seq<Agent>)
    ensures active == Active(agents)
  {
    hide Types, Defines, LastOf;
    var byType: map<Text, Agent>, order: seq<Text> := map[], [];
    TypesOfNone();
    for n := 0 to |agents|
      invariant order == Types(agents[..n])
      invariant forall t :: t in byType <==> Defines(agents[..n], t)
      invariant forall t <- byType.Keys :: byType[t] == LastOf(agents[..n], t)
    {
      var agent := agents[n];
      OneMore(agents[..n], agent);
      assert agents[..n + 1] == agents[..n] + [agent];
      if agent.agentType !in byType {
        order := order + [agent.agentType];
      }
      byType := byType[agent.agentType := agent];
    }
    assert agents[..|agents|] == agents;
    active := [];
    TypesDefined(agents);
    for i := 0 to |order|
      invariant active == Active(agents)[..i]
    {
      active := active + [byType[order[i]]];
    }
  }

  lemma TypesOfNone()
    ensures Types([]) == [] && forall t :: !Defines([], t)
  {
  }

  lemma OneMore(agents: seq<Agent>, a: Agent)
    ensures Types(agents + [a])
         == if Defines(agents, a.agentType) then Types(agents) else Types(agents) + [a.agentType]
    ensures forall t :: Defines(agents + [a], t) <==> Defines(agents, t) || a.agentType == t
    ensures forall t | Defines(agents + [a], t) ::
      LastOf(agents + [a], t) == if a.agentType == t then a else LastOf(agents, t)
  {
    assert (agents + [a])[..|agents|] == agents;
  }

  /******* Where each type stands *******/

  function FirstIndex(agents: seq<Agent>, t: Text): (n: nat)
    ensures n <= |agents| && (n < |agents| ==> agents[n].agentType == t)
    ensures forall i :: 0 <= i < n ==> agents[i].agentType != t
  {
    if agents == [] then 0
    else if agents[0].agentType == t then 0
    else 1 + FirstIndex(agents[1..], t)
  }

  lemma FirstIndexIs(agents: seq<Agent>, t: Text, n: nat)
    requires n < |agents| && agents[n].agentType == t && forall i :: 0 <= i < n ==> agents[i].agentType != t
    ensures FirstIndex(agents, t) == n
  {
  }

  /** The types stand in the order of their first definitions. */
  lemma {:induction false} TypesInOrder(agents: seq<Agent>, i: nat, j: nat)
    requires i < j < |Types(agents)|
    ensures FirstIndex(agents, Types(agents)[i]) < FirstIndex(agents, Types(agents)[j]) < |agents|
  {
    hide FirstIndex, Types;
    TypesOfNone();
    var before, last := agents[..|agents| - 1], agents[|agents| - 1];
    assert agents == before + [last];
    OneMore(before, last);
    TypesDefined(before);
    FirstIndexGrows(before, last, Types(agents)[i]);
    FirstIndexGrows(before, last, Types(agents)[j]);
    if j < |Types(before)| {
      TypesInOrder(before, i, j);
    }
  }

  lemma FirstIndexGrows(agents: seq<Agent>, a: Agent, t: Text)
    ensures Defines(agents, t) ==>
      FirstIndex(agents + [a], t) == FirstIndex(agents, t) < |agents|
    ensures !Defines(agents, t) && a.agentType == t ==> FirstIndex(agents + [a], t) == |agents|
  {
    if Defines(agents, t) {
      FirstIndexIs(agents + [a], t, FirstIndex(agents, t));
    } else if a.agentType == t {
      FirstIndexIs(agents + [a], t, |agents|);
    }
  }

  /** One agent per type, each the last definition of its type, in the order of the
      first definitions. */
  lemma ActiveIsLastWins(agents: seq<Agent>)
    ensures forall t :: Defines(Active(agents), t) <==> Defines(agents, t)
    ensures forall i, j :: 0 <= i < j < |Active(agents)| ==>
      && Active(agents)[i].agentType != Active(agents)[j].agentType
      && FirstIndex(agents, Active(agents)[i].agentType) < FirstIndex(agents, Active(agents)[j].agentType)
    ensures forall a <- Active(agents) :: a == LastOf(agents, a.agentType)
  {
    hide Types, FirstIndex, LastOf;
    TypesDefined(agents);
    forall t
      ensures Defines(Active(agents), t) <==> Defines(agents, t)
    {
      if Defines(agents, t) {
        var i :| 0 <= i < |Types(agents)| && Types(agents)[i] == t;
        assert Active(agents)[i] in Active(agents);
      }
    }
    forall i, j | 0 <= i < j < |Active(agents)|
      ensures FirstIndex(agents, Types(agents)[i]) < FirstIndex(agents, Types(agents)[j])
    {
      TypesInOrder(agents, i, j);
    }
  }

  /******* Merging tier by tier *******/

  lemma {:induction false} Appended(xs: seq<Agent>, ys: seq<Agent>, t: Text)
    ensures Defines(xs + ys, t) <==> Defines(xs, t) || Defines(ys, t)
    ensures Defines(xs + ys, t) ==> LastOf(xs + ys, t) == if Defines(ys, t) then LastOf(ys, t) else LastOf(xs, t)
  {
    if ys == [] {
      assert xs + ys == xs;
    } else {
      var y := ys[|ys| - 1];
      Appended(xs, ys[..|ys| - 1], t);
      assert xs + ys == (xs + ys[..|ys| - 1]) + [y] && ys == ys[..|ys| - 1] + [y];
      OneMore(xs + ys[..|ys| - 1], y);
      OneMore(ys[..|ys| - 1], y);
    }
  }

  /** Lists with the same types so far go on having them. */
  lemma {:induction false} TypesAfter(xs: seq<Agent>, zs: seq<Agent>, ys: seq<Agent>)
    requires Types(xs) == Types(zs)
    ensures Types(xs + ys) == Types(zs + ys)
  {
    hide Types, LastOf;
    if ys == [] {
      assert xs + ys == xs && zs + ys == zs;
    } else {
      var before, y := ys[..|ys| - 1], ys[|ys| - 1];
      TypesAfter(xs, zs, before);
      assert xs + ys == (xs + before) + [y] && zs + ys == (zs + before) + [y];
      OneMore(xs + before, y);
      OneMore(zs + before, y);
      TypesDefined(xs + before);
      TypesDefined(zs + before);
    }
  }

  lemma {:induction false} TypesOfDistinct(agents: seq<Agent>)
    requires forall i, j :: 0 <= i < j < |agents| ==> agents[i].agentType != agents[j].agentType
    ensures |Types(agents)| == |agents| && forall i :: 0 <= i < |agents| ==> Types(agents)[i] == agents[i].agentType
  {
    if agents != [] {
      TypesOfDistinct(agents[..|agents| - 1]);
    }
  }

  lemma TypesOfActive(agents: seq<Agent>)
    ensures Types(Active(agents)) == Types(agents)
  {
    hide Types, LastOf;
    TypesDefined(agents);
    TypesOfDistinct(Active(agents));
  }

  lemma LastOfActive(agents: seq<Agent>, t: Text)
    ensures Defines(Active(agents), t) <==> Defines(agents, t)
    ensures Defines(agents, t) ==> LastOf(Active(agents), t) == LastOf(agents, t)
  {
    hide Types, LastOf, FirstIndex;
    ActiveIsLastWins(agents);
  }

  /** Deduplicating early changes nothing, so merging tier by tier is merging the
      whole ordered list. */
  lemma ActiveAbsorbs(xs: seq<Agent>, ys: seq<Agent>)
    ensures Active(Active(xs) + ys) == Active(xs + ys)
  {
    hide Types, LastOf;
    TypesOfActive(xs);
    TypesAfter(Active(xs), xs, ys);
    forall i | 0 <= i < |Types(xs + ys)|
      ensures Active(Active(xs) + ys)[i] == Active(xs + ys)[i]
    {
      var t := Types(xs + ys)[i];
      LastOfActive(xs, t);
      Appended(xs, ys, t);
      Appended(Active(xs), ys, t);
    }
  }

  function Concat(tiers: seq<seq<Agent>>): seq<Agent> {
    if tiers == [] then [] else Concat(tiers[..|tiers| - 1]) + tiers[|tiers| - 1]
  }

  ghost function TierByTier(tiers: seq<seq<Agent>>): seq<Agent> {
    if tiers == [] then [] else Active(TierByTier(tiers[..|tiers| - 1]) + tiers[|tiers| - 1])
  }

  lemma {:induction false} TiersMerge(tiers: seq<seq<Agent>>)
    ensures TierByTier(tiers) == Active(Concat(tiers))
  {
    hide Types, LastOf;
    if tiers == [] {
      TypesOfNone();
    } else {
      TiersMerge(tiers[..|tiers| - 1]);
      ActiveAbsorbs(Concat(tiers[..|tiers| - 1]), tiers[|tiers| - 1]);
    }
  }

  /** The definition that wins is the last one of the highest tier that has one. */
  lemma {:induction false} HighestTierWins(tiers: seq<seq<Agent>>, k: nat, t: Text)
    requires k < |tiers| && Defines(tiers[k], t) && forall i :: k < i < |tiers| ==> !Defines(tiers[i], t)
    ensures Defines(Concat(tiers), t) && LastOf(Concat(tiers), t) == LastOf(tiers[k], t)
  {
    hide LastOf, Defines;
    var before, last := tiers[..|tiers| - 1], tiers[|tiers| - 1];
    Appended(Concat(before), last, t);
    if k < |tiers| - 1 {
      HighestTierWins(before, k, t);
    }
  }

  /** What discovery found, by source, in ascending priority. */
  datatype Discovered = Discovered(builtIn: seq<Agent>, plugin: seq<Agent>, user: seq<Agent>,
                                   project: seq<Agent>, managed: seq<Agent>)

  function InMergeOrder(d: Discovered): seq<seq<Agent>> {
    [d.builtIn, d.plugin, d.user, d.project, d.managed]
  }

  method MergeDiscovered(d: Discovered) returns (active: seq<Agent>)
    ensures active == Active(Concat(InMergeOrder(d)))
  {
    var tiers := InMergeOrder(d);
    var flat: seq<Agent> := [];
    for n := 0 to |tiers|
      invariant flat == Concat(tiers[..n])
    {
      assert tiers[..n + 1][..n] == tiers[..n];
      flat := flat + tiers[n];
    }
    assert tiers[..|tiers|] == tiers;
    active := GetActiveAgentsFromList(flat);
  }

  /** A managed definition wins over a project's, that over a user's, that over a
      plugin's, and that over a built-in one. */
  lemma SourcePriority(d: Discovered, t: Text)
    ensures var all := Concat(InMergeOrder(d));
      if Defines(d.managed, t) then Defines(all, t) && LastOf(all, t) == LastOf(d.managed, t)
      else if Defines(d.project, t) then Defines(all, t) && LastOf(all, t) == LastOf(d.project, t)
      else if Defines(d.user, t) then Defines(all, t) && LastOf(all, t) == LastOf(d.user, t)
      else if Defines(d.plugin, t) then Defines(all, t) && LastOf(all, t) == LastOf(d.plugin, t)
      else if Defines(d.builtIn, t) then Defines(all, t) && LastOf(all, t) == LastOf(d.builtIn, t)
      else !Defines(all, t)
  {
    hide Defines, LastOf, Concat;
    var tiers := InMergeOrder(d);
    if Defines(d.managed, t) {
      HighestTierWins(tiers, 4, t);
    } else if Defines(d.project, t) {
      HighestTierWins(tiers, 3, t);
    } else if Defines(d.user, t) {
      HighestTierWins(tiers, 2, t);
    } else if Defines(d.plugin, t) {
      HighestTierWins(tiers, 1, t);
    } else if Defines(d.builtIn, t) {
      HighestTierWins(tiers, 0, t);
    } else {
      UndefinedThroughout(tiers, t);
    }
  }

  lemma {:induction false} UndefinedThroughout(tiers: seq<seq<Agent>>, t: Text)
    requires forall i :: 0 <= i < |tiers| ==> !Defines(tiers[i], t)
    ensures !Defines(Concat(tiers), t)
  {
    if tiers != [] {
      UndefinedThroughout(tiers[..|tiers| - 1], t);
      Appended(Concat(tiers[..|tiers| - 1]), tiers[|tiers| - 1], t);
    }
  }
}
