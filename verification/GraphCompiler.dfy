/**
 From a validated document to started workflows: the tree walk that lists agents parents first and mints their ids,
 its inverse, and the builders whose lookups cannot fail on what the walk produced.
 */
module GraphCompiler {
  import opened Wrappers
  import opened Sorting
  import opened GraphYaml

  type Uuid = string

  /** The `n`-th freshly minted id; all that is known of them is that no two are equal. */
  type Mint = f: nat -> Uuid | forall i, j :: f(i) == f(j) ==> i == j witness (i: nat) => UnaryName(i)

  function UnaryName(n: nat): (s: string)
    ensures |s| == n
  {
    seq(n, _ => 'a')
  }

  /** `graphs/<graph>/agents/<agent>`. */
  datatype WorkflowId = WorkflowId(graphId: Uuid, agentId: Uuid)

  datatype ResolvedAgent = ResolvedAgent(operatorId: string, dbAgentId: Uuid, parent: Option<Uuid>)

  datatype ResolvedWorkflow = ResolvedWorkflow(dbAgentId: Uuid, workflowId: WorkflowId)

  datatype AppliedGraph = AppliedGraph(
    graphId: Uuid, graphName: string, agents: seq<ResolvedAgent>, idMap: map<string, ResolvedWorkflow>)

  // --- The walk, as a list --------------------------------------------------------------------------------

  function Flatten(mint: Mint, forest: seq<Agent>, parent: Option<Uuid>, n: nat): seq<ResolvedAgent>
    decreases forest
  {
    if forest == [] then []
    else
      var here := ResolvedAgent(forest[0].id, mint(n), parent);
      var below := Flatten(mint, forest[0].children, Some(mint(n)), n + 1);
      [here] + below + Flatten(mint, forest[1..], parent, n + 1 + |Preorder(forest[0].children)|)
  }

  /** A parent is the walk's own, or an id minted after `n` and before the child's. */
  ghost predicate ParentIsEarlier(mint: Mint, e: ResolvedAgent, parent: Option<Uuid>, n: nat, i: nat) {
    e.parent == parent || exists k :: n <= k < n + i && e.parent == Some(mint(k))
  }

  /** The `i`-th entry of a walk begun at id `n` is the `i`-th agent in preorder, under the `i`-th id from there. */
  ghost predicate EntryFits(
    mint: Mint, list: seq<ResolvedAgent>, agents: seq<Agent>, parent: Option<Uuid>, n: nat, i: nat)
    requires i < |list| == |agents|
  {
    && list[i].operatorId == agents[i].id && list[i].dbAgentId == mint(n + i)
    && ParentIsEarlier(mint, list[i], parent, n, i)
  }

  ghost predicate WalkFits(mint: Mint, list: seq<ResolvedAgent>, agents: seq<Agent>, parent: Option<Uuid>, n: nat) {
    |list| == |agents| && forall i :: 0 <= i < |list| ==> EntryFits(mint, list, agents, parent, n, i)
  }

  lemma {:induction false} FlattenFacts(mint: Mint, forest: seq<Agent>, parent: Option<Uuid>, n: nat)
    ensures WalkFits(mint, Flatten(mint, forest, parent, n), Preorder(forest), parent, n)
    decreases forest
  {
    if forest != [] {
      var kids := Preorder(forest[0].children);
      var m := n + 1 + |kids|;
      FlattenFacts(mint, forest[0].children, Some(mint(n)), n + 1);
      FlattenFacts(mint, forest[1..], parent, m);
      WalksJoin(
        mint, forest[0], parent, n, Flatten(mint, forest[0].children, Some(mint(n)), n + 1), kids,
        Flatten(mint, forest[1..], parent, m), Preorder(forest[1..]), m);
    }
  }

  lemma WalksJoin(
    mint: Mint, first: Agent, parent: Option<Uuid>, n: nat, below: seq<ResolvedAgent>, kids: seq<Agent>,
    rest: seq<ResolvedAgent>, later: seq<Agent>, m: nat)
    requires WalkFits(mint, below, kids, Some(mint(n)), n + 1) && WalkFits(mint, rest, later, parent, m)
    requires m == n + 1 + |kids|
    ensures WalkFits(mint, [ResolvedAgent(first.id, mint(n), parent)] + below + rest, [first] + kids + later, parent, n)
  {
    var l, p := [ResolvedAgent(first.id, mint(n), parent)] + below + rest, [first] + kids + later;
    forall i | 0 <= i < |p| ensures EntryFits(mint, l, p, parent, n, i) {
      if 1 <= i <= |kids| {
        assert l[i] == below[i - 1] && p[i] == kids[i - 1] && EntryFits(mint, below, kids, Some(mint(n)), n + 1, i - 1);
      } else if i > |kids| {
        var j := i - 1 - |kids|;
        assert l[i] == rest[j] && p[i] == later[j] && EntryFits(mint, rest, later, parent, m, j);
      }
    }
  }

  // --- Rebuilding the forest ------------------------------------------------------------------------------

  /** The children of `parent` in list order, each with its own children rebuilt, looked up by operator id. */
  function Rebuild(list: seq<ResolvedAgent>, parent: Option<Uuid>, index: map<string, Agent>): seq<Agent>
    decreases |list|
  {
    if list == [] then []
    else if list[0].parent == parent && list[0].operatorId in index then
      [index[list[0].operatorId].(children := Rebuild(list[1..], Some(list[0].dbAgentId), index))]
      + Rebuild(list[1..], parent, index)
    else Rebuild(list[1..], parent, index)
  }

  ghost predicate NoChildOf(list: seq<ResolvedAgent>, parent: Option<Uuid>) {
    forall e :: e in list ==> e.parent != parent
  }

  lemma {:induction false} RebuildNothing(list: seq<ResolvedAgent>, parent: Option<Uuid>, index: map<string, Agent>)
    requires NoChildOf(list, parent)
    ensures Rebuild(list, parent, index) == []
  {
    if list != [] {
      assert list[0] in list;
      RebuildNothing(list[1..], parent, index);
    }
  }

  /** Two stretches rebuild independently when the second hangs nothing below the first. */
  lemma {:induction false} RebuildConcat(
    a: seq<ResolvedAgent>, b: seq<ResolvedAgent>, parent: Option<Uuid>, index: map<string, Agent>)
    requires forall e :: e in a ==> NoChildOf(b, Some(e.dbAgentId))
    ensures Rebuild(a + b, parent, index) == Rebuild(a, parent, index) + Rebuild(b, parent, index)
    decreases |a|
  {
    if a == [] {
      assert a + b == b;
    } else {
      var l, id := a + b, Some(a[0].dbAgentId);
      assert l[1..] == a[1..] + b && l[0] == a[0] && a[0] in a;
      RebuildConcat(a[1..], b, parent, index);
      RebuildConcat(a[1..], b, id, index);
      RebuildNothing(b, id, index);
      assert Rebuild(l[1..], id, index) == Rebuild(a[1..], id, index);
    }
  }

  /** An entry, its subtree and what follows rebuild to one tree and the rest. */
  lemma RebuildHead(
    here: ResolvedAgent, below: seq<ResolvedAgent>, rest: seq<ResolvedAgent>, parent: Option<Uuid>,
    index: map<string, Agent>)
    requires forall e :: e in below ==> NoChildOf(rest, Some(e.dbAgentId))
    requires NoChildOf(rest, Some(here.dbAgentId)) && NoChildOf(below, parent)
    requires here.parent == parent && here.operatorId in index
    ensures Rebuild([here] + below + rest, parent, index)
         == [index[here.operatorId].(children := Rebuild(below, Some(here.dbAgentId), index))]
           + Rebuild(rest, parent, index)
  {
    var id, l := Some(here.dbAgentId), [here] + below + rest;
    RebuildConcat(below, rest, id, index);
    RebuildConcat(below, rest, parent, index);
    RebuildNothing(rest, id, index);
    RebuildNothing(below, parent, index);
    assert l[1..] == below + rest && l[0] == here;
    assert Rebuild(l[1..], id, index) == Rebuild(below, id, index);
    assert Rebuild(l[1..], parent, index) == Rebuild(rest, parent, index);
  }

  /** The index knows everything about the agents but their children. */
  ghost predicate Describes(index: map<string, Agent>, agents: seq<Agent>) {
    forall a :: a in agents ==> a.id in index && index[a.id].(children := a.children) == a
  }

  /** The walk's own parent was minted before `n`, if at all. */
  ghost predicate MintedBefore(mint: Mint, parent: Option<Uuid>, n: nat) {
    forall k :: k >= n ==> parent != Some(mint(k))
  }

  lemma DescribesParts(index: map<string, Agent>, forest: seq<Agent>)
    requires forest != [] && Describes(index, Preorder(forest))
    ensures forest[0].id in index && index[forest[0].id].(children := forest[0].children) == forest[0]
    ensures Describes(index, Preorder(forest[0].children)) && Describes(index, Preorder(forest[1..]))
  {
    var all := Preorder(forest);
    assert all == [forest[0]] + Preorder(forest[0].children) + Preorder(forest[1..]);
    assert all[0] == forest[0];
    assert forall a :: a in Preorder(forest[0].children) || a in Preorder(forest[1..]) ==> a in all;
  }

  lemma NothingHangsAcross(mint: Mint, forest: seq<Agent>, parent: Option<Uuid>, n: nat, k: nat)
    requires k < n && parent != Some(mint(k))
    ensures NoChildOf(Flatten(mint, forest, parent, n), Some(mint(k)))
  {
    FlattenFacts(mint, forest, parent, n);
    var l := Flatten(mint, forest, parent, n);
    forall e | e in l ensures e.parent != Some(mint(k)) {
      var i :| 0 <= i < |l| && l[i] == e;
      assert EntryFits(mint, l, Preorder(forest), parent, n, i);
    }
  }

  /** The parents-first list determines the forest, child order included. */
  lemma {:induction false} RebuildInvertsFlatten(
    mint: Mint, forest: seq<Agent>, parent: Option<Uuid>, n: nat, index: map<string, Agent>, list: seq<ResolvedAgent>)
    requires Describes(index, Preorder(forest)) && MintedBefore(mint, parent, n)
    requires list == Flatten(mint, forest, parent, n)
    ensures Rebuild(list, parent, index) == forest
    decreases forest
  {
    if forest != [] {
      var m := n + 1 + |Preorder(forest[0].children)|;
      var below, rest := Flatten(mint, forest[0].children, Some(mint(n)), n + 1), Flatten(mint, forest[1..], parent, m);
      var here := ResolvedAgent(forest[0].id, mint(n), parent);
      assert list == [here] + below + rest;
      DescribesParts(index, forest);
      StretchesAreApart(mint, forest, parent, n, below, rest);
      RebuildInvertsFlatten(mint, forest[0].children, Some(mint(n)), n + 1, index, below);
      RebuildInvertsFlatten(mint, forest[1..], parent, m, index, rest);
      ReassembleFirst(here, below, rest, forest, index);
    }
  }

  lemma ReassembleFirst(
    here: ResolvedAgent, below: seq<ResolvedAgent>, rest: seq<ResolvedAgent>, forest: seq<Agent>,
    index: map<string, Agent>)
    requires forall e :: e in below ==> NoChildOf(rest, Some(e.dbAgentId))
    requires NoChildOf(rest, Some(here.dbAgentId)) && NoChildOf(below, here.parent)
    requires forest != [] && here.operatorId in index
    requires index[here.operatorId].(children := forest[0].children) == forest[0]
    requires Rebuild(below, Some(here.dbAgentId), index) == forest[0].children
    requires Rebuild(rest, here.parent, index) == forest[1..]
    ensures Rebuild([here] + below + rest, here.parent, index) == forest
  {
    RebuildHead(here, below, rest, here.parent, index);
    assert forest == [forest[0]] + forest[1..];
  }

  lemma StretchesAreApart(
    mint: Mint, forest: seq<Agent>, parent: Option<Uuid>, n: nat, below: seq<ResolvedAgent>, rest: seq<ResolvedAgent>)
    requires forest != [] && MintedBefore(mint, parent, n)
    requires below == Flatten(mint, forest[0].children, Some(mint(n)), n + 1)
    requires rest == Flatten(mint, forest[1..], parent, n + 1 + |Preorder(forest[0].children)|)
    ensures forall e :: e in below ==> NoChildOf(rest, Some(e.dbAgentId))
    ensures NoChildOf(rest, Some(mint(n))) && NoChildOf(below, parent)
  {
    var m := n + 1 + |Preorder(forest[0].children)|;
    FlattenFacts(mint, forest[0].children, Some(mint(n)), n + 1);
    forall e | e in below ensures NoChildOf(rest, Some(e.dbAgentId)) && e.parent != parent {
      var i :| 0 <= i < |below| && below[i] == e;
      assert EntryFits(mint, below, Preorder(forest[0].children), Some(mint(n)), n + 1, i);
      NothingHangsAcross(mint, forest[1..], parent, m, n + 1 + i);
    }
    NothingHangsAcross(mint, forest[1..], parent, m, n);
  }

  // --- Rows, edges and the id map -------------------------------------------------------------------------

  function EdgesOf(list: seq<ResolvedAgent>): seq<(Uuid, Uuid)> {
    if list == [] then []
    else (if list[0].parent.Some? then [(list[0].parent.value, list[0].dbAgentId)] else []) + EdgesOf(list[1..])
  }

  /** An edge row leads from an agent's parent to the agent, and there is one for every agent with a parent. */
  lemma {:induction false} EdgesLeadFromParents(list: seq<ResolvedAgent>)
    ensures forall p, c :: (p, c) in EdgesOf(list) <==> exists e :: e in list && e.dbAgentId == c && e.parent == Some(p)
  {
    if list != [] {
      EdgesLeadFromParents(list[1..]);
      assert forall e :: e in list <==> e == list[0] || e in list[1..];
    }
  }

  lemma {:induction false} EdgesConcat(a: seq<ResolvedAgent>, b: seq<ResolvedAgent>)
    ensures EdgesOf(a + b) == EdgesOf(a) + EdgesOf(b)
  {
    var l := a + b;
    if a == [] {
      assert l == b;
    } else {
      assert l[1..] == a[1..] + b && l[0] == a[0];
      EdgesConcat(a[1..], b);
      ConcatAssoc(if a[0].parent.Some? then [(a[0].parent.value, a[0].dbAgentId)] else [], EdgesOf(a[1..]), EdgesOf(b));
    }
  }

  /** One edge per agent that is not a root. */
  lemma {:induction false} EdgeCount(mint: Mint, forest: seq<Agent>, parent: Option<Uuid>, n: nat)
    ensures |EdgesOf(Flatten(mint, forest, parent, n))|
         == |Preorder(forest)| - (if parent.None? then |forest| else 0)
    decreases forest
  {
    if forest != [] {
      var m := n + 1 + |Preorder(forest[0].children)|;
      var here := ResolvedAgent(forest[0].id, mint(n), parent);
      var below, rest := Flatten(mint, forest[0].children, Some(mint(n)), n + 1), Flatten(mint, forest[1..], parent, m);
      EdgeCount(mint, forest[0].children, Some(mint(n)), n + 1);
      EdgeCount(mint, forest[1..], parent, m);
      EdgesHead(here, below, rest, Flatten(mint, forest, parent, n));
    }
  }

  lemma EdgesHead(here: ResolvedAgent, below: seq<ResolvedAgent>, rest: seq<ResolvedAgent>, l: seq<ResolvedAgent>)
    requires l == [here] + below + rest
    ensures |EdgesOf(l)| == (if here.parent.Some? then 1 else 0) + |EdgesOf(below)| + |EdgesOf(rest)|
  {
    ConcatAssoc([here], below, rest);
    EdgesConcat(below, rest);
    EdgesCons(here, below + rest);
  }

  lemma EdgesCons(here: ResolvedAgent, tail: seq<ResolvedAgent>)
    ensures |EdgesOf([here] + tail)| == (if here.parent.Some? then 1 else 0) + |EdgesOf(tail)|
  {
    assert ([here] + tail)[1..] == tail;
  }

  /** Later entries overwrite earlier ones of the same operator id. */
  function IdMapOf(graphId: Uuid, list: seq<ResolvedAgent>): map<string, ResolvedWorkflow> {
    if list == [] then map[]
    else
      var last := list[|list| - 1];
      IdMapOf(graphId, list[..|list| - 1])[
        last.operatorId := ResolvedWorkflow(last.dbAgentId, WorkflowId(graphId, last.dbAgentId))]
  }

  ghost predicate DistinctNames(list: seq<ResolvedAgent>) {
    forall i, j :: 0 <= i < j < |list| ==> list[i].operatorId != list[j].operatorId
  }

  lemma {:induction false} IdMapEntries(graphId: Uuid, list: seq<ResolvedAgent>)
    requires DistinctNames(list)
    ensures forall i :: 0 <= i < |list| ==>
      && list[i].operatorId in IdMapOf(graphId, list)
      && IdMapOf(graphId, list)[list[i].operatorId]
      == ResolvedWorkflow(list[i].dbAgentId, WorkflowId(graphId, list[i].dbAgentId))
    ensures forall name :: name in IdMapOf(graphId, list) ==> exists i :: 0 <= i < |list| && list[i].operatorId == name
  {
    if list != [] {
      var front := list[..|list| - 1];
      IdMapEntries(graphId, front);
      assert forall i :: 0 <= i < |front| ==> front[i] == list[i];
      forall name | name in IdMapOf(graphId, list) ensures exists i :: 0 <= i < |list| && list[i].operatorId == name {
        if name == list[|list| - 1].operatorId {
          assert 0 <= |list| - 1 < |list|;
        } else {
          assert name in IdMapOf(graphId, front);
          var i :| 0 <= i < |front| && front[i].operatorId == name;
          assert list[i].operatorId == name;
        }
      }
    }
  }

  /** What the walk hands on for a document. */
  function Applied(g: Graph, graphId: Uuid, mint: Mint): AppliedGraph {
    var agents := Flatten(mint, g.agents, None, 0);
    AppliedGraph(graphId, g.name, agents, IdMapOf(graphId, agents))
  }

  /** The entry's own row in the id map. */
  ghost predicate MapsToItself(applied: AppliedGraph, e: ResolvedAgent) {
    && e.operatorId in applied.idMap
    && applied.idMap[e.operatorId] == ResolvedWorkflow(e.dbAgentId, WorkflowId(applied.graphId, e.dbAgentId))
  }

  ghost predicate ToldApart(agents: seq<ResolvedAgent>) {
    forall i, j :: 0 <= i < j < |agents| ==>
      agents[i].dbAgentId != agents[j].dbAgentId && agents[i].operatorId != agents[j].operatorId
  }

  /** For a valid document the id map and the agent list are two views of one bijection. */
  lemma IdMapIsBijective(g: Graph, graphId: Uuid, mint: Mint)
    requires DistinctIds(Preorder(g.agents))
    ensures var applied := Applied(g, graphId, mint);
      && applied.graphId == graphId && applied.graphName == g.name
      && applied.idMap.Keys == Ids(Preorder(g.agents)) && |applied.agents| == |Preorder(g.agents)|
      && (forall i :: 0 <= i < |applied.agents| ==>
            applied.agents[i].operatorId == Preorder(g.agents)[i].id && MapsToItself(applied, applied.agents[i]))
      && ToldApart(applied.agents)
  {
    var agents := Flatten(mint, g.agents, None, 0);
    FlattenFacts(mint, g.agents, None, 0);
    WalkIsToldApart(mint, agents, Preorder(g.agents), 0);
    IdMapEntries(graphId, agents);
    KeysAreIds(IdMapOf(graphId, agents).Keys, agents, Preorder(g.agents));
  }

  lemma WalkIsToldApart(mint: Mint, agents: seq<ResolvedAgent>, listed: seq<Agent>, n: nat)
    requires DistinctIds(listed) && WalkFits(mint, agents, listed, None, n)
    ensures ToldApart(agents) && DistinctNames(agents)
    ensures forall i :: 0 <= i < |agents| ==> agents[i].operatorId == listed[i].id
  {
    forall i | 0 <= i < |agents| ensures agents[i].operatorId == listed[i].id && agents[i].dbAgentId == mint(n + i) {
      assert EntryFits(mint, agents, listed, None, n, i);
    }
  }

  lemma KeysAreIds(keys: set<string>, agents: seq<ResolvedAgent>, listed: seq<Agent>)
    requires |agents| == |listed| && forall i :: 0 <= i < |agents| ==> agents[i].operatorId == listed[i].id
    requires forall i :: 0 <= i < |agents| ==> agents[i].operatorId in keys
    requires forall name :: name in keys ==> exists i :: 0 <= i < |agents| && agents[i].operatorId == name
    ensures keys == Ids(listed)
  {
    forall name ensures name in keys <==> name in Ids(listed) {
      if name in keys {
        var i :| 0 <= i < |agents| && agents[i].operatorId == name;
        assert listed[i] in listed;
      }
      if name in Ids(listed) {
        var i :| 0 <= i < |listed| && listed[i].id == name;
        assert agents[i].operatorId in keys;
      }
    }
  }

  // --- The walk over the tables ---------------------------------------------------------------------------

  function RowsOf(list: seq<ResolvedAgent>): seq<(Uuid, string)> {
    seq(|list|, i requires 0 <= i < |list| => (list[i].dbAgentId, list[i].operatorId))
  }

  lemma IdMapSnoc(graphId: Uuid, list: seq<ResolvedAgent>, e: ResolvedAgent)
    ensures IdMapOf(graphId, list + [e])
         == IdMapOf(graphId, list)[e.operatorId := ResolvedWorkflow(e.dbAgentId, WorkflowId(graphId, e.dbAgentId))]
  {
    assert (list + [e])[..|list|] == list;
  }

  lemma {:induction false} FlattenSplit(
    mint: Mint, a: seq<Agent>, b: seq<Agent>, l: seq<Agent>, parent: Option<Uuid>, n: nat, q: nat)
    requires l == a + b && q == n + |Preorder(a)|
    ensures Flatten(mint, l, parent, n) == Flatten(mint, a, parent, n) + Flatten(mint, b, parent, q)
    decreases |a|
  {
    if a == [] {
      assert l == b;
    } else {
      TailOfConcat(a, b);
      FlattenSplit(mint, a[1..], b, l[1..], parent, n + 1 + |Preorder(a[0].children)|, q);
      FlattenSplitStep(mint, a, b, l, parent, n, q);
    }
  }

  lemma FlattenSplitStep(
    mint: Mint, a: seq<Agent>, b: seq<Agent>, l: seq<Agent>, parent: Option<Uuid>, n: nat, q: nat)
    requires a != [] && l != [] && l[0] == a[0]
    requires var m := n + 1 + |Preorder(a[0].children)|;
      Flatten(mint, l[1..], parent, m) == Flatten(mint, a[1..], parent, m) + Flatten(mint, b, parent, q)
    ensures Flatten(mint, l, parent, n) == Flatten(mint, a, parent, n) + Flatten(mint, b, parent, q)
  {
    var m := n + 1 + |Preorder(a[0].children)|;
    var head := FlattenCons(mint, a, parent, n);
    FlattenSameHead(mint, a, l, parent, n, head);
    JoinHead(
      head, Flatten(mint, l[1..], parent, m), Flatten(mint, a[1..], parent, m), Flatten(mint, b, parent, q),
      Flatten(mint, l, parent, n), Flatten(mint, a, parent, n));
  }

  lemma JoinHead<T>(head: seq<T>, whole: seq<T>, front: seq<T>, back: seq<T>, all: seq<T>, some: seq<T>)
    requires whole == front + back && all == head + whole && some == head + front
    ensures all == some + back
  {
  }

  /** The first tree's stretch, and that the rest follows it. */
  lemma FlattenCons(mint: Mint, forest: seq<Agent>, parent: Option<Uuid>, n: nat) returns (head: seq<ResolvedAgent>)
    requires forest != []
    ensures head == [ResolvedAgent(forest[0].id, mint(n), parent)]
      + Flatten(mint, forest[0].children, Some(mint(n)), n + 1)
    ensures Flatten(mint, forest, parent, n)
         == head + Flatten(mint, forest[1..], parent, n + 1 + |Preorder(forest[0].children)|)
    ensures |Preorder(forest)| == 1 + |Preorder(forest[0].children)| + |Preorder(forest[1..])|
  {
    head := [ResolvedAgent(forest[0].id, mint(n), parent)] + Flatten(mint, forest[0].children, Some(mint(n)), n + 1);
  }

  lemma FlattenSameHead(
    mint: Mint, a: seq<Agent>, b: seq<Agent>, parent: Option<Uuid>, n: nat, head: seq<ResolvedAgent>)
    requires a != [] && b != [] && a[0] == b[0]
    requires head == [ResolvedAgent(a[0].id, mint(n), parent)] + Flatten(mint, a[0].children, Some(mint(n)), n + 1)
    ensures Flatten(mint, b, parent, n) == head + Flatten(mint, b[1..], parent, n + 1 + |Preorder(a[0].children)|)
  {
    var same := FlattenCons(mint, b, parent, n);
  }

  /** Walking one more sibling appends its stretch. */
  lemma FlattenNext(
    mint: Mint, forest: seq<Agent>, i: nat, parent: Option<Uuid>, n: nat, front: seq<ResolvedAgent>,
    before: seq<ResolvedAgent>, after: seq<ResolvedAgent>)
    requires i < |forest|
    requires before == front + Flatten(mint, forest[..i], parent, n)
    requires after == before + Flatten(mint, [forest[i]], parent, n + |Preorder(forest[..i])|)
    ensures |Preorder(forest[..i + 1])| == |Preorder(forest[..i])| + |Preorder([forest[i]])|
    ensures after == front + Flatten(mint, forest[..i + 1], parent, n)
  {
    SplitAtChild(forest, i);
    CutAt(forest, i);
    FlattenSplit(mint, forest[..i], [forest[i]], forest[..i + 1], parent, n, n + |Preorder(forest[..i])|);
    ConcatAssoc(front, Flatten(mint, forest[..i], parent, n),
      Flatten(mint, [forest[i]], parent, n + |Preorder(forest[..i])|));
  }

  lemma FlattenOne(mint: Mint, agent: Agent, parent: Option<Uuid>, n: nat, front: seq<ResolvedAgent>)
    ensures front + Flatten(mint, [agent], parent, n)
         == front + [ResolvedAgent(agent.id, mint(n), parent)] + Flatten(mint, agent.children, Some(mint(n)), n + 1)
    ensures |Preorder([agent])| == 1 + |Preorder(agent.children)|
  {
    var forest, here := [agent], [ResolvedAgent(agent.id, mint(n), parent)];
    var below := Flatten(mint, agent.children, Some(mint(n)), n + 1);
    PreorderOne(agent);
    var head := FlattenCons(mint, forest, parent, n);
    assert forest[1..] == [];
    assert head + [] == head;
    ConcatAssoc(front, here, below);
  }

  lemma FlattenNone(mint: Mint, forest: seq<Agent>, parent: Option<Uuid>, n: nat)
    ensures Flatten(mint, forest[..0], parent, n) == [] && Preorder(forest[..0]) == []
  {
  }

  lemma SubtreeIsSmaller(forest: seq<Agent>, i: nat)
    requires i < |forest|
    ensures |Preorder(forest)| >= 1 + |Preorder(forest[i].children)|
  {
    SplitAtChild(forest, i);
    PreorderOne(forest[i]);
  }

  class Transaction {
    const graphId: Uuid
    const mint: Mint
    var minted: nat
    var agentRows: seq<(Uuid, string)>
    var edgeRows: seq<(Uuid, Uuid)>
    var resolved: seq<ResolvedAgent>
    var idMap: map<string, ResolvedWorkflow>

    /** The rows and the id map say what the resolved list says. */
    ghost predicate Valid()
      reads this
    {
      agentRows == RowsOf(resolved) && edgeRows == EdgesOf(resolved) && idMap == IdMapOf(graphId, resolved)
    }

    constructor (graphId: Uuid, mint: Mint)
      ensures Valid() && this.graphId == graphId && this.mint == mint && minted == 0 && resolved == []
    {
      this.graphId, this.mint := graphId, mint;
      minted, agentRows, edgeRows, resolved, idMap := 0, [], [], [], map[];
    }

    method WalkAgentTree(agent: Agent, parent: Option<Uuid>)
      requires Valid()
      modifies this
      ensures Valid()
      ensures resolved == old(resolved) + Flatten(mint, [agent], parent, old(minted))
      ensures minted == old(minted) + |Preorder([agent])|
      decreases 1 + |Preorder(agent.children)|, 0
    {
      FlattenOne(mint, agent, parent, minted, resolved);
      var id := mint(minted);
      minted := minted + 1;
      Insert(ResolvedAgent(agent.id, id, parent));
      WalkForest(agent.children, Some(id));
    }

    method WalkForest(forest: seq<Agent>, parent: Option<Uuid>)
      requires Valid()
      modifies this
      ensures Valid()
      ensures resolved == old(resolved) + Flatten(mint, forest, parent, old(minted))
      ensures minted == old(minted) + |Preorder(forest)|
      decreases |Preorder(forest)|, 2
    {
      ghost var front, n := resolved, minted;
      FlattenNone(mint, forest, parent, n);
      for i := 0 to |forest|
        invariant Valid()
        invariant minted == n + |Preorder(forest[..i])|
        invariant resolved == front + Flatten(mint, forest[..i], parent, n)
      {
        WalkNext(forest, i, parent, front, n);
      }
      assert forest[..|forest|] == forest;
    }

    method WalkNext(forest: seq<Agent>, i: nat, parent: Option<Uuid>, ghost front: seq<ResolvedAgent>, ghost n: nat)
      requires Valid() && i < |forest| && minted == n + |Preorder(forest[..i])|
      requires resolved == front + Flatten(mint, forest[..i], parent, n)
      modifies this
      ensures Valid() && minted == n + |Preorder(forest[..i + 1])|
      ensures resolved == front + Flatten(mint, forest[..i + 1], parent, n)
      decreases |Preorder(forest)|, 1
    {
      ghost var done := resolved;
      SubtreeIsSmaller(forest, i);
      WalkAgentTree(forest[i], parent);
      FlattenNext(mint, forest, i, parent, n, front, done, resolved);
    }

    /** One agent's writes: its row, its edge, its map entry, its place in the list. */
    method Insert(here: ResolvedAgent)
      requires Valid()
      modifies `agentRows, `edgeRows, `idMap, `resolved
      ensures Valid() && resolved == old(resolved) + [here]
      ensures agentRows == old(agentRows) + [(here.dbAgentId, here.operatorId)]
      ensures edgeRows == old(edgeRows) + if here.parent.Some? then [(here.parent.value, here.dbAgentId)] else []
    {
      agentRows := agentRows + [(here.dbAgentId, here.operatorId)];
      EdgesConcat(resolved, [here]);
      assert [here][1..] == [];
      if here.parent.Some? {
        edgeRows := edgeRows + [(here.parent.value, here.dbAgentId)];
      }
      IdMapSnoc(graphId, resolved, here);
      idMap := idMap[here.operatorId := ResolvedWorkflow(here.dbAgentId, WorkflowId(graphId, here.dbAgentId))];
      resolved := resolved + [here];
    }
  }

  datatype StoreError = GraphAlreadyExists(name: string)

  /** Creates only: a taken name is turned down, otherwise the walk of every root is handed on. */
  method CreateFromYaml(names: set<string>, g: Graph, graphId: Uuid, mint: Mint)
    returns (r: Result<AppliedGraph, StoreError>)
    ensures r == if g.name in names then Err(GraphAlreadyExists(g.name)) else Ok(Applied(g, graphId, mint))
  {
    if g.name in names {
      return Err(GraphAlreadyExists(g.name));
    }
    var tx := new Transaction(graphId, mint);
    tx.WalkForest(g.agents, None);
    assert tx.resolved == Flatten(mint, g.agents, None, 0);
    r := Ok(AppliedGraph(graphId, g.name, tx.resolved, tx.idMap));
  }

  // --- Workflow starts ------------------------------------------------------------------------------------

  /** A failed `expect`. */
  datatype Panic = Panic(message: string)

  datatype NodeMandate = NodeMandate(text: string, cadence: Cadence, model: Option<string>, tools: seq<string>)

  datatype ParentHandle = ParentHandle(workflowId: WorkflowId, agentId: Uuid)

  datatype AgentInput = AgentInput(
    graphId: Uuid, agentId: Uuid, agentName: string, parent: Option<ParentHandle>, mandate: NodeMandate)

  datatype WorkflowStart = WorkflowStart(workflowId: WorkflowId, input: AgentInput)

  function ResolveMandate(agent: Agent, defaults: Option<AgentDefaults>): (r: Result<NodeMandate, Panic>)
    ensures r.Ok? <==> agent.mandate.idlePeriod.Some? || (defaults.Some? && defaults.value.idlePeriod.Some?)
    ensures r.Ok? ==>
      r.value.text == agent.mandate.text && r.value.tools == agent.tools && r.value.model == agent.mandate.model
    ensures r.Ok? && agent.mandate.idlePeriod.Some? ==> r.value.cadence == agent.mandate.idlePeriod.value
    ensures r.Ok? && agent.mandate.idlePeriod.None? ==> defaults == Some(AgentDefaults(Some(r.value.cadence)))
  {
    match CadenceOf(agent, defaults)
    case None => Err(Panic("validate() should have rejected agents without idle_period"))
    case Some(cadence) => Ok(NodeMandate(agent.mandate.text, cadence, agent.mandate.model, agent.tools))
  }

  /** Fills the index in preorder, so a repeated id would keep its last agent. */
  method IndexAgents(root: Agent, index: map<string, Agent>) returns (index': map<string, Agent>)
    ensures index' == Indexed(index, Preorder([root]))
    decreases root
  {
    index' := index[root.id := root];
    PreorderOne(root);
    IndexedConcat(index, [root], Preorder(root.children));
    assert Indexed(index, [root]) == index' by {
      assert [root][..|[root]| - 1] == [];
    }
    for i := 0 to |root.children|
      invariant index' == Indexed(index[root.id := root], Preorder(root.children[..i]))
    {
      SplitAtChild(root.children, i);
      IndexedConcat(index[root.id := root], Preorder(root.children[..i]), Preorder([root.children[i]]));
      index' := IndexAgents(root.children[i], index');
    }
    assert root.children[..|root.children|] == root.children;
  }

  function Indexed(index: map<string, Agent>, agents: seq<Agent>): map<string, Agent> {
    if agents == [] then index
    else Indexed(index, agents[..|agents| - 1])[agents[|agents| - 1].id := agents[|agents| - 1]]
  }

  lemma {:induction false} IndexedConcat(index: map<string, Agent>, a: seq<Agent>, b: seq<Agent>)
    ensures Indexed(index, a + b) == Indexed(Indexed(index, a), b)
    decreases |b|
  {
    if b == [] {
      assert a + b == a;
    } else {
      var n := |b| - 1;
      assert (a + b)[..|a + b| - 1] == a + b[..n];
      IndexedConcat(index, a, b[..n]);
    }
  }

  ghost predicate Indexes(index: map<string, Agent>, agents: seq<Agent>) {
    forall a :: a in agents ==> a.id in index && index[a.id] == a
  }

  lemma {:induction false} IndexedIndexes(index: map<string, Agent>, agents: seq<Agent>)
    requires DistinctIds(agents)
    ensures Indexes(Indexed(index, agents), agents)
  {
    if agents != [] {
      var n := |agents| - 1;
      IndexedIndexes(index, agents[..n]);
      forall a | a in agents && a != agents[n] ensures a.id != agents[n].id && a in agents[..n] {
        var i :| 0 <= i < |agents| && agents[i] == a;
      }
    }
  }

  /** The index with every agent stripped of its children. */
  function Childless(index: map<string, Agent>): map<string, Agent> {
    map id | id in index :: index[id].(children := [])
  }

  /**
   Flatten and rebuild are inverse on every valid document: the list and what each agent is by itself give back the
   forest, child order included. The edges are the agents less the roots.
   */
  lemma AppliedGraphDeterminesForest(g: Graph, graphId: Uuid, mint: Mint)
    requires IsValid(g)
    ensures Rebuild(Applied(g, graphId, mint).agents, None, Childless(Indexed(map[], Preorder(g.agents)))) == g.agents
    ensures |EdgesOf(Applied(g, graphId, mint).agents)| == |Applied(g, graphId, mint).agents| - |g.agents|
  {
    IndexedIndexes(map[], Preorder(g.agents));
    var parts := Childless(Indexed(map[], Preorder(g.agents)));
    RebuildInvertsFlatten(mint, g.agents, None, 0, parts, Applied(g, graphId, mint).agents);
    EdgeCount(mint, g.agents, None, 0);
    FlattenFacts(mint, g.agents, None, 0);
  }

  method IndexForest(forest: seq<Agent>) returns (index: map<string, Agent>)
    ensures index == Indexed(map[], Preorder(forest))
  {
    index := map[];
    for i := 0 to |forest|
      invariant index == Indexed(map[], Preorder(forest[..i]))
    {
      SplitAtChild(forest, i);
      IndexedConcat(map[], Preorder(forest[..i]), Preorder([forest[i]]));
      index := IndexAgents(forest[i], index);
    }
    assert forest[..|forest|] == forest;
  }

  /** The first listed agent with this database id. */
  method FindByDbId(agents: seq<ResolvedAgent>, id: Uuid) returns (r: Option<ResolvedAgent>)
    ensures r.Some? ==> r.value in agents && r.value.dbAgentId == id
    ensures r.None? ==> forall e :: e in agents ==> e.dbAgentId != id
  {
    for i := 0 to |agents|
      invariant forall k :: 0 <= k < i ==> agents[k].dbAgentId != id
    {
      if agents[i].dbAgentId == id {
        return Some(agents[i]);
      }
    }
    r := None;
  }

  /** The caller's side: the document's agents in preorder, ids told apart, parents listed earlier, the map complete. */
  ghost predicate ParentsFirst(listed: seq<Agent>, applied: AppliedGraph) {
    && |applied.agents| == |listed|
    && (forall i :: 0 <= i < |applied.agents| ==>
          && applied.agents[i].operatorId == listed[i].id
          && MapsToItself(applied, applied.agents[i])
          && ParentListedBefore(applied.agents, i))
    && ToldApart(applied.agents)
  }

  ghost predicate ParentListedBefore(agents: seq<ResolvedAgent>, i: nat)
    requires i < |agents|
  {
    agents[i].parent.None? || exists j :: 0 <= j < i && agents[i].parent == Some(agents[j].dbAgentId)
  }

  /** What the walk produced for a valid document meets the builders' requirements. */
  lemma AppliedIsParentsFirst(g: Graph, graphId: Uuid, mint: Mint)
    requires DistinctIds(Preorder(g.agents))
    ensures ParentsFirst(Preorder(g.agents), Applied(g, graphId, mint))
  {
    var agents := Applied(g, graphId, mint).agents;
    IdMapIsBijective(g, graphId, mint);
    FlattenFacts(mint, g.agents, None, 0);
    forall i | 0 <= i < |agents| ensures ParentListedBefore(agents, i) {
      assert EntryFits(mint, agents, Preorder(g.agents), None, 0, i);
      if agents[i].parent.Some? {
        var k :| 0 <= k < i && agents[i].parent == Some(mint(k));
        assert EntryFits(mint, agents, Preorder(g.agents), None, 0, k);
      }
    }
  }

  /** `start` starts the `i`-th agent with its own mandate, under its parent's workflow if it has a parent. */
  ghost predicate StartFits(
    listed: seq<Agent>, defaults: Option<AgentDefaults>, applied: AppliedGraph, i: nat, start: WorkflowStart)
    requires i < |applied.agents| == |listed|
  {
    var e := applied.agents[i];
    && start.workflowId == WorkflowId(applied.graphId, e.dbAgentId)
    && start.input.graphId == applied.graphId && start.input.agentId == e.dbAgentId
    && start.input.agentName == e.operatorId
    && Ok(start.input.mandate) == ResolveMandate(listed[i], defaults)
    && start.input.parent == (match e.parent
                              case None => None
                              case Some(p) => Some(ParentHandle(WorkflowId(applied.graphId, p), p)))
  }

  /** No two agents share an id, each has a cadence, and the walk's result fits them. */
  ghost predicate Startable(listed: seq<Agent>, defaults: Option<AgentDefaults>, applied: AppliedGraph) {
    DistinctIds(listed) && ParentsFirst(listed, applied) && forall a :: a in listed ==> CadenceOf(a, defaults).Some?
  }

  /** One iteration of the builder; every lookup in it is an `expect`. */
  method BuildStart(
    ghost listed: seq<Agent>, defaults: Option<AgentDefaults>, applied: AppliedGraph, index: map<string, Agent>, i: nat)
    returns (r: Result<WorkflowStart, Panic>)
    requires i < |applied.agents|
    ensures Indexes(index, listed) && Startable(listed, defaults, applied) ==>
      r.Ok? && StartFits(listed, defaults, applied, i, r.value)
  {
    var e := applied.agents[i];
    ghost var sound := Indexes(index, listed) && Startable(listed, defaults, applied);
    assert sound ==> listed[i] in listed && MapsToItself(applied, e) && ParentListedBefore(applied.agents, i);
    if e.operatorId !in index {
      return Err(Panic("AppliedGraph operator_id must reference a YAML agent"));
    }
    var mandate := ResolveMandate(index[e.operatorId], defaults);
    if mandate.Err? {
      return Err(mandate.error);
    }
    if e.operatorId !in applied.idMap {
      return Err(Panic("AppliedGraph id_map missing entry"));
    }
    var workflowId := applied.idMap[e.operatorId].workflowId;
    var handle: Option<ParentHandle> := None;
    if e.parent.Some? {
      var parent := FindByDbId(applied.agents, e.parent.value);
      if parent.None? {
        return Err(Panic("parent_db_agent_id must reference some agent in AppliedGraph"));
      }
      if parent.value.operatorId !in applied.idMap {
        return Err(Panic("id_map missing parent operator id"));
      }
      handle := Some(ParentHandle(applied.idMap[parent.value.operatorId].workflowId, e.parent.value));
      assert sound ==> MapsToItself(applied, parent.value);
    }
    r := Ok(WorkflowStart(workflowId, AgentInput(applied.graphId, e.dbAgentId, e.operatorId, handle, mandate.value)));
  }

  /** Where the caller keeps its side no `expect` fires, and every agent gets its start, in list order. */
  method BuildWorkflowStarts(g: Graph, applied: AppliedGraph) returns (r: Result<seq<WorkflowStart>, Panic>)
    ensures Startable(Preorder(g.agents), g.defaults, applied) ==>
      r.Ok? && AllStartsFit(Preorder(g.agents), g.defaults, applied, r.value)
  {
    var index := IndexForest(g.agents);
    if DistinctIds(Preorder(g.agents)) {
      IndexedIndexes(map[], Preorder(g.agents));
    }
    r := BuildAll(Preorder(g.agents), g.defaults, applied, index);
  }

  method BuildAll(
    ghost listed: seq<Agent>, defaults: Option<AgentDefaults>, applied: AppliedGraph, index: map<string, Agent>)
    returns (r: Result<seq<WorkflowStart>, Panic>)
    ensures Indexes(index, listed) && Startable(listed, defaults, applied) ==>
      r.Ok? && AllStartsFit(listed, defaults, applied, r.value)
  {
    var starts := [];
    ghost var sound := Indexes(index, listed) && Startable(listed, defaults, applied);
    for i := 0 to |applied.agents|
      invariant |starts| == i
      invariant sound ==> |applied.agents| == |listed|
      invariant sound ==> forall k :: 0 <= k < i ==> StartFits(listed, defaults, applied, k, starts[k])
    {
      var start := BuildStart(listed, defaults, applied, index, i);
      if start.Err? {
        return Err(start.error);
      }
      starts := starts + [start.value];
    }
    r := Ok(starts);
  }

  ghost predicate AllStartsFit(
    listed: seq<Agent>, defaults: Option<AgentDefaults>, applied: AppliedGraph, starts: seq<WorkflowStart>)
  {
    && |starts| == |applied.agents| == |listed|
    && forall i :: 0 <= i < |starts| ==> StartFits(listed, defaults, applied, i, starts[i])
  }

  /** Start ids are pairwise distinct, and a child's parent is a strictly earlier start. */
  lemma StartsAreOrdered(
    listed: seq<Agent>, defaults: Option<AgentDefaults>, applied: AppliedGraph, starts: seq<WorkflowStart>)
    requires ParentsFirst(listed, applied) && AllStartsFit(listed, defaults, applied, starts)
    ensures forall i, j :: 0 <= i < j < |starts| ==> starts[i].workflowId != starts[j].workflowId
    ensures forall i :: 0 <= i < |starts| && starts[i].input.parent.Some? ==>
      exists j :: 0 <= j < i &&
        starts[i].input.parent == Some(ParentHandle(starts[j].workflowId, starts[j].input.agentId))
  {
    forall i | 0 <= i < |starts| && starts[i].input.parent.Some?
      ensures exists j ::
        0 <= j < i && starts[i].input.parent == Some(ParentHandle(starts[j].workflowId, starts[j].input.agentId))
    {
      assert StartFits(listed, defaults, applied, i, starts[i]) && ParentListedBefore(applied.agents, i);
      var j :| 0 <= j < i && applied.agents[i].parent == Some(applied.agents[j].dbAgentId);
      assert StartFits(listed, defaults, applied, j, starts[j]);
    }
    forall i, j | 0 <= i < j < |starts| ensures starts[i].workflowId != starts[j].workflowId {
      assert StartFits(listed, defaults, applied, i, starts[i]) && StartFits(listed, defaults, applied, j, starts[j]);
    }
  }

  // --- Seed triggers --------------------------------------------------------------------------------------

  datatype ResolvedSeed = ResolvedSeed(workflowId: WorkflowId, kind: string, payload: string)

  ghost predicate SeedFits(applied: AppliedGraph, t: SeedTrigger, seed: ResolvedSeed) {
    t.agent in applied.idMap && seed == ResolvedSeed(applied.idMap[t.agent].workflowId, t.kind, t.payload)
  }

  /** The seed at `i` is the first that names no agent of the list. */
  ghost predicate FirstUnmapped(triggers: seq<SeedTrigger>, applied: AppliedGraph, i: int) {
    && 0 <= i < |triggers| && triggers[i].agent !in applied.idMap
    && forall j :: 0 <= j < i ==> triggers[j].agent in applied.idMap
  }

  /** Each trigger, in order, goes to the workflow of the agent it names. */
  method YamlSeedTriggers(g: Graph, applied: AppliedGraph) returns (r: Result<seq<ResolvedSeed>, GraphError>)
    ensures r.Ok? <==> forall t :: t in g.triggers ==> t.agent in applied.idMap
    ensures r.Err? ==>
      exists i :: FirstUnmapped(g.triggers, applied, i) && r.error == UnknownTriggerAgent(g.triggers[i].agent)
    ensures r.Ok? ==>
      && |r.value| == |g.triggers|
      && forall i :: 0 <= i < |g.triggers| ==> SeedFits(applied, g.triggers[i], r.value[i])
  {
    var out := [];
    for i := 0 to |g.triggers|
      invariant |out| == i
      invariant forall k :: 0 <= k < i ==> SeedFits(applied, g.triggers[k], out[k])
    {
      var seed := g.triggers[i];
      assert seed in g.triggers;
      if seed.agent !in applied.idMap {
        assert FirstUnmapped(g.triggers, applied, i);
        return Err(UnknownTriggerAgent(seed.agent));
      }
      out := out + [ResolvedSeed(applied.idMap[seed.agent].workflowId, seed.kind, seed.payload)];
    }
    r := Ok(out);
  }

  lemma SeedsHaveWorkflows(g: Graph, applied: AppliedGraph)
    requires SeedsOk(g.triggers, Ids(Preorder(g.agents))) && ParentsFirst(Preorder(g.agents), applied)
    ensures forall t :: t in g.triggers ==> t.agent in applied.idMap
  {
    forall t | t in g.triggers ensures t.agent in applied.idMap {
      assert t.agent in Ids(Preorder(g.agents));
      var i :| 0 <= i < |Preorder(g.agents)| && Preorder(g.agents)[i].id == t.agent;
      assert MapsToItself(applied, applied.agents[i]);
    }
  }

  /** A document that validation accepts, and what the walk made of it, leave no lookup of the builders unanswered. */
  lemma ValidatedCompiles(g: Graph, graphId: Uuid, mint: Mint)
    requires IsValid(g)
    ensures Startable(Preorder(g.agents), g.defaults, Applied(g, graphId, mint))
    ensures forall t :: t in g.triggers ==> t.agent in Applied(g, graphId, mint).idMap
  {
    AppliedIsParentsFirst(g, graphId, mint);
    SeedsHaveWorkflows(g, Applied(g, graphId, mint));
  }

  datatype CompileError = Invalid(fault: GraphError) | Refused(refusal: StoreError)

  /**
   The whole pipeline: it fails exactly on an invalid document or a taken name, the document's faults coming first,
   and otherwise starts every agent and resolves every seed.
   */
  method Compile(taken: set<string>, g: Graph, graphId: Uuid, mint: Mint)
    returns (r: Result<(seq<WorkflowStart>, seq<ResolvedSeed>), CompileError>)
    ensures r.Ok? <==> IsValid(g) && g.name !in taken
    ensures !IsValid(g) ==> r.Err? && r.error.Invalid? && RejectedFor(r.error.fault, g)
    ensures IsValid(g) && g.name in taken ==> r == Err(Refused(GraphAlreadyExists(g.name)))
    ensures r.Ok? ==> AllStartsFit(Preorder(g.agents), g.defaults, Applied(g, graphId, mint), r.value.0)
    ensures r.Ok? ==>
      && |r.value.1| == |g.triggers|
      && forall i :: 0 <= i < |g.triggers| ==> SeedFits(Applied(g, graphId, mint), g.triggers[i], r.value.1[i])
  {
    var checked := Validate(g);
    if checked.Err? {
      return Err(Invalid(checked.error));
    }
    ValidatedCompiles(g, graphId, mint);
    var applied := CreateFromYaml(taken, g, graphId, mint);
    if applied.Err? {
      return Err(Refused(applied.error));
    }
    var starts := BuildWorkflowStarts(g, applied.value);
    var seeds := YamlSeedTriggers(g, applied.value);
    r := Ok((starts.value, seeds.value));
  }
}
