/**
 The graph document and its validator: a walk over a forest with early returns and accumulated id sets, proved to
 accept exactly what a flat predicate over the listed agents says.
 */
module GraphYaml {
  import opened Wrappers
  import opened Sorting

  const API_VERSION := "coral.engine/v1alpha1"
  const KIND := "Graph"

  datatype Cadence = Every(millis: nat) | Never

  datatype YamlMandate = YamlMandate(text: string, idlePeriod: Option<Cadence>, model: Option<string>)

  datatype Agent = Agent(id: string, mandate: YamlMandate, tools: seq<string>, children: seq<Agent>)

  datatype ToolKind = Builtin(builtin: string) | Mcp(command: string, args: seq<string>, env: map<string, string>)

  datatype Tool = Tool(id: string, kind: ToolKind)

  datatype SeedTrigger = SeedTrigger(agent: string, at: string, kind: string, payload: string)

  datatype AgentDefaults = AgentDefaults(idlePeriod: Option<Cadence>)

  datatype Graph = Graph(
    apiVersion: string, kind: string, name: string, defaults: Option<AgentDefaults>,
    tools: seq<Tool>, agents: seq<Agent>, triggers: seq<SeedTrigger>)

  datatype GraphError =
    | UnsupportedApiVersion(actual: string)
    | UnsupportedKind(actual: string)
    | NoAgents
    | DuplicateAgentId(agentId: string)
    | CyclicChildren(agentId: string)
    | MissingMandateIdlePeriod(agentId: string)
    | EmptyMcpCommand(toolId: string)
    | InvalidName(field: string, value: string)
    | UnknownToolReference(agentId: string, toolId: string)
    | UnknownTriggerAgent(agentId: string)
    | UnsupportedTriggerAt(actual: string)
    | EmptySeedTriggers
    | DuplicateToolId(toolId: string)

  // --- Names ----------------------------------------------------------------------------------------------

  predicate IsAlnum(c: char) {
    'a' <= c <= 'z' || '0' <= c <= '9'
  }

  method IsUrlPathSafeName(s: string) returns (ok: bool)
    ensures ok <==> MatchesNamePattern(s)
  {
    if s == "" {
      return false;
    }
    var first, last := s[0], s[|s| - 1];
    if !IsAlnum(first) || !IsAlnum(last) {
      return false;
    }
    NamePatternMeans(s);
    ok := true;
    for i := 0 to |s|
      invariant ok <==> forall k :: 0 <= k < i ==> IsAlnum(s[k]) || s[k] == '-'
    {
      ok := ok && (IsAlnum(s[i]) || s[i] == '-');
    }
  }

  lemma NamePatternMeans(s: string)
    requires s != "" && IsAlnum(s[0]) && IsAlnum(s[|s| - 1])
    ensures MatchesNamePattern(s) <==> forall k :: 0 <= k < |s| ==> IsAlnum(s[k]) || s[k] == '-'
  {
    if |s| > 1 {
      var middle := s[1..|s| - 1];
      assert s == [s[0]] + middle + [s[|s| - 1]];
      if forall k :: 0 <= k < |s| ==> IsAlnum(s[k]) || s[k] == '-' {
        assert SplitsAsName(s, middle);
      }
      forall other | SplitsAsName(s, other) ensures other == middle {
        SameMiddle(s, other);
      }
      assert forall k :: 0 < k < |s| - 1 ==> s[k] == middle[k - 1];
    }
  }

  lemma SameMiddle(s: string, middle: string)
    requires SplitsAsName(s, middle)
    ensures middle == s[1..|s| - 1]
  {
    assert forall k :: 0 <= k < |middle| ==> middle[k] == s[k + 1];
  }

  /** `^[a-z0-9]([a-z0-9-]*[a-z0-9])?$`, read off the pattern. */
  ghost predicate MatchesNamePattern(s: string) {
    || (|s| == 1 && InClass(s[0]))
    || (exists middle :: SplitsAsName(s, middle))
  }

  /** `[a-z0-9]`, as the pattern has it. */
  ghost predicate InClass(c: char) {
    'a' <= c <= 'z' || '0' <= c <= '9'
  }

  ghost predicate SplitsAsName(s: string, middle: string) {
    && |s| >= 2 && InClass(s[0]) && InClass(s[|s| - 1])
    && s == [s[0]] + middle + [s[|s| - 1]]
    && forall k :: 0 <= k < |middle| ==> InClass(middle[k]) || middle[k] == '-'
  }

  // --- The declarative side -------------------------------------------------------------------------------

  /** All agents of the forest, each before its children, siblings in order. */
  function Preorder(forest: seq<Agent>): seq<Agent>
    decreases forest
  {
    if forest == [] then [] else [forest[0]] + Preorder(forest[0].children) + Preorder(forest[1..])
  }

  function Ids(agents: seq<Agent>): set<string> {
    set a | a in agents :: a.id
  }

  ghost predicate DistinctIds(agents: seq<Agent>) {
    forall i, j :: 0 <= i < j < |agents| ==> agents[i].id != agents[j].id
  }

  function CadenceOf(agent: Agent, defaults: Option<AgentDefaults>): Option<Cadence> {
    if agent.mandate.idlePeriod.Some? then agent.mandate.idlePeriod
    else if defaults.Some? then defaults.value.idlePeriod
    else None
  }

  ghost predicate AgentOk(a: Agent, registered: set<string>, defaults: Option<AgentDefaults>) {
    && MatchesNamePattern(a.id)
    && CadenceOf(a, defaults).Some?
    && forall t :: t in a.tools ==> t in registered
  }

  /** Each agent is fine by itself, and no id is repeated or already taken. */
  ghost predicate AgentsOk(
    agents: seq<Agent>, registered: set<string>, defaults: Option<AgentDefaults>, taken: set<string>)
  {
    && (forall a :: a in agents ==> AgentOk(a, registered, defaults) && a.id !in taken)
    && DistinctIds(agents)
  }

  predicate IsWhiteSpace(c: char) {
    var p := c as int;
    || 0x9 <= p <= 0xD || p == 0x20 || p == 0x85 || p == 0xA0 || p == 0x1680
    || 0x2000 <= p <= 0x200A || p == 0x2028 || p == 0x2029 || p == 0x202F || p == 0x205F || p == 0x3000
  }

  predicate IsBlank(s: string) {
    forall i :: 0 <= i < |s| ==> IsWhiteSpace(s[i])
  }

  function ToolIds(tools: seq<Tool>): set<string> {
    set t | t in tools :: t.id
  }

  ghost predicate ToolsOk(tools: seq<Tool>) {
    && (forall i, j :: 0 <= i < j < |tools| ==> tools[i].id != tools[j].id)
    && (forall t :: t in tools && t.kind.Mcp? ==> !IsBlank(t.kind.command))
  }

  ghost predicate SeedsOk(triggers: seq<SeedTrigger>, ids: set<string>) {
    triggers != [] && forall t :: t in triggers ==> t.agent in ids && t.at == "start"
  }

  ghost predicate IsValid(g: Graph) {
    && g.apiVersion == API_VERSION && g.kind == KIND
    && MatchesNamePattern(g.name)
    && g.agents != []
    && ToolsOk(g.tools)
    && AgentsOk(Preorder(g.agents), ToolIds(g.tools), g.defaults, {})
    && SeedsOk(g.triggers, Ids(Preorder(g.agents)))
  }

  /** The error names a fault the agents really have. */
  ghost predicate AgentFault(
    e: GraphError, agents: seq<Agent>, registered: set<string>, defaults: Option<AgentDefaults>, taken: set<string>)
  {
    match e
    case InvalidName(field, value) => field == "agents[].id" && value in Ids(agents) && !MatchesNamePattern(value)
    case DuplicateAgentId(id) =>
      id in Ids(agents) && (id in taken || exists i, j :: 0 <= i < j < |agents| && agents[i].id == agents[j].id == id)
    case CyclicChildren(id) => exists p, c :: p in agents && c in p.children && p.id == c.id == id
    case MissingMandateIdlePeriod(id) => exists a :: a in agents && a.id == id && CadenceOf(a, defaults).None?
    case UnknownToolReference(id, tool) =>
      exists a :: a in agents && a.id == id && tool in a.tools && tool !in registered
    case _ => false
  }

  ghost predicate ToolFault(e: GraphError, tools: seq<Tool>) {
    match e
    case DuplicateToolId(id) => exists i, j :: 0 <= i < j < |tools| && tools[i].id == tools[j].id == id
    case EmptyMcpCommand(id) => exists t :: t in tools && t.id == id && t.kind.Mcp? && IsBlank(t.kind.command)
    case _ => false
  }

  ghost predicate SeedFault(e: GraphError, triggers: seq<SeedTrigger>, ids: set<string>) {
    match e
    case EmptySeedTriggers => triggers == []
    case UnknownTriggerAgent(id) => id !in ids && exists t :: t in triggers && t.agent == id
    case UnsupportedTriggerAt(at) => at != "start" && exists t :: t in triggers && t.at == at
    case _ => false
  }

  ghost predicate IsFaultOf(e: GraphError, g: Graph) {
    || (e == UnsupportedApiVersion(g.apiVersion) && g.apiVersion != API_VERSION)
    || (e == UnsupportedKind(g.kind) && g.kind != KIND)
    || (e == InvalidName("metadata.name", g.name) && !MatchesNamePattern(g.name))
    || (e == NoAgents && g.agents == [])
    || ToolFault(e, g.tools)
    || AgentFault(e, Preorder(g.agents), ToolIds(g.tools), g.defaults, {})
    || SeedFault(e, g.triggers, Ids(Preorder(g.agents)))
  }

  // --- Every fault of a document, in document order -------------------------------------------------------

  /** A listed agent and the agent it is a child of. */
  datatype Node = Node(parent: Option<Agent>, agent: Agent)

  /** The listing of `Preorder`, with parents. */
  function Nodes(forest: seq<Agent>, parent: Option<Agent>): seq<Node>
    decreases forest
  {
    if forest == [] then []
    else [Node(parent, forest[0])] + Nodes(forest[0].children, Some(forest[0])) + Nodes(forest[1..], parent)
  }

  function AgentsOf(nodes: seq<Node>): seq<Agent> {
    seq(|nodes|, i requires 0 <= i < |nodes| => nodes[i].agent)
  }

  function UnknownTools(id: string, tools: seq<string>, registered: set<string>): seq<GraphError> {
    if tools == [] then []
    else
      (if tools[0] in registered then [] else [UnknownToolReference(id, tools[0])])
      + UnknownTools(id, tools[1..], registered)
  }

  /** What is wrong with an agent, its parent aside, when the ids in `taken` are listed before it. */
  ghost function AgentFaults(
    a: Agent, registered: set<string>, defaults: Option<AgentDefaults>, taken: set<string>): seq<GraphError>
  {
    (if MatchesNamePattern(a.id) then [] else [InvalidName("agents[].id", a.id)])
    + (if a.id in taken then [DuplicateAgentId(a.id)] else [])
    + (if CadenceOf(a, defaults).None? then [MissingMandateIdlePeriod(a.id)] else [])
    + UnknownTools(a.id, a.tools, registered)
  }

  predicate NamedLikeParent(node: Node) {
    node.parent.Some? && node.parent.value.id == node.agent.id
  }

  ghost function NodeFaults(
    node: Node, registered: set<string>, defaults: Option<AgentDefaults>, taken: set<string>): seq<GraphError>
  {
    (if NamedLikeParent(node) then [CyclicChildren(node.agent.id)] else [])
    + AgentFaults(node.agent, registered, defaults, taken)
  }

  ghost function Faults(
    nodes: seq<Node>, registered: set<string>, defaults: Option<AgentDefaults>, taken: set<string>): seq<GraphError>
    decreases |nodes|
  {
    if nodes == [] then []
    else
      NodeFaults(nodes[0], registered, defaults, taken)
      + Faults(nodes[1..], registered, defaults, taken + {nodes[0].agent.id})
  }

  function ToolFaults(tools: seq<Tool>, taken: set<string>): seq<GraphError>
    decreases |tools|
  {
    if tools == [] then []
    else
      var t := tools[0];
      (if t.id in taken then [DuplicateToolId(t.id)] else [])
      + (if t.kind.Mcp? && IsBlank(t.kind.command) then [EmptyMcpCommand(t.id)] else [])
      + ToolFaults(tools[1..], taken + {t.id})
  }

  function TriggerFaults(triggers: seq<SeedTrigger>, ids: set<string>): seq<GraphError> {
    if triggers == [] then []
    else
      var t := triggers[0];
      (if t.agent in ids then [] else [UnknownTriggerAgent(t.agent)])
      + (if t.at == "start" then [] else [UnsupportedTriggerAt(t.at)])
      + TriggerFaults(triggers[1..], ids)
  }

  function SeedFaults(triggers: seq<SeedTrigger>, ids: set<string>): seq<GraphError> {
    if triggers == [] then [EmptySeedTriggers] else TriggerFaults(triggers, ids)
  }

  ghost function HeaderFaults(g: Graph): seq<GraphError> {
    (if g.apiVersion == API_VERSION then [] else [UnsupportedApiVersion(g.apiVersion)])
    + (if g.kind == KIND then [] else [UnsupportedKind(g.kind)])
    + (if MatchesNamePattern(g.name) then [] else [InvalidName("metadata.name", g.name)])
    + (if g.agents == [] then [NoAgents] else [])
  }

  /** Every fault: of the header, then of the tools, then of the listed agents, then of the seeds. */
  ghost function DocumentFaults(g: Graph): seq<GraphError> {
    HeaderFaults(g)
    + ToolFaults(g.tools, {})
    + Faults(Nodes(g.agents, None), ToolIds(g.tools), g.defaults, {})
    + SeedFaults(g.triggers, Ids(Preorder(g.agents)))
  }

  /** The outcome is the first of these faults, or none. */
  ghost predicate Reports<T>(r: Result<T, GraphError>, faults: seq<GraphError>) {
    if faults == [] then r.Ok? else r == Err(faults[0])
  }

  // --- Facts about lists of agents ------------------------------------------------------------------------

  lemma {:induction false} PreorderConcat(a: seq<Agent>, b: seq<Agent>)
    ensures Preorder(a + b) == Preorder(a) + Preorder(b)
  {
    if a == [] {
      assert a + b == b;
    } else {
      assert (a + b)[1..] == a[1..] + b;
      PreorderConcat(a[1..], b);
    }
  }

  lemma PreorderOne(a: Agent)
    ensures Preorder([a]) == [a] + Preorder(a.children)
  {
    assert [a][1..] == [];
  }

  /** Checking a list is checking its front and then its back with the front's ids taken. */
  lemma AgentsOkConcat(
    a: seq<Agent>, b: seq<Agent>, registered: set<string>, defaults: Option<AgentDefaults>, taken: set<string>)
    ensures AgentsOk(a + b, registered, defaults, taken) <==>
            AgentsOk(a, registered, defaults, taken) && AgentsOk(b, registered, defaults, taken + Ids(a))
    ensures Ids(a + b) == Ids(a) + Ids(b)
  {
    var l := a + b;
    if AgentsOk(l, registered, defaults, taken) {
      assert forall i :: 0 <= i < |a| ==> a[i] == l[i];
      assert forall j :: 0 <= j < |b| ==> b[j] == l[|a| + j];
      forall x | x in b ensures x.id !in Ids(a) {
        forall y | y in a ensures y.id != x.id {
          var i :| 0 <= i < |a| && a[i] == y;
          var j :| 0 <= j < |b| && b[j] == x;
          assert l[i].id != l[|a| + j].id;
        }
      }
    }
    if AgentsOk(a, registered, defaults, taken) && AgentsOk(b, registered, defaults, taken + Ids(a)) {
      forall i, j | 0 <= i < j < |l| ensures l[i].id != l[j].id {
        if i < |a| && |a| <= j {
          assert l[i] == a[i] && l[j] == b[j - |a|] && b[j - |a|] in b;
        }
      }
    }
  }

  lemma FaultInPart(
    e: GraphError, a: seq<Agent>, b: seq<Agent>, c: seq<Agent>,
    registered: set<string>, defaults: Option<AgentDefaults>, taken: set<string>)
    requires AgentFault(e, b, registered, defaults, taken + Ids(a))
    ensures AgentFault(e, a + b + c, registered, defaults, taken)
  {
    var l := a + b + c;
    assert forall x :: x in b ==> x in l;
    assert forall i :: 0 <= i < |a| ==> l[i] == a[i];
    assert forall i :: 0 <= i < |b| ==> l[|a| + i] == b[i];
    match e {
      case DuplicateAgentId(id) =>
        if id in Ids(a) {
          var i :| 0 <= i < |a| && a[i].id == id;
          var j :| 0 <= j < |b| && b[j].id == id;
          assert l[i].id == l[|a| + j].id == id;
        } else if id !in taken {
          var i, j :| 0 <= i < j < |b| && b[i].id == b[j].id == id;
          assert l[|a| + i].id == l[|a| + j].id == id;
        }
      case _ =>
    }
  }

  lemma SplitAtChild(forest: seq<Agent>, i: nat)
    requires i < |forest|
    ensures Preorder(forest[..i + 1]) == Preorder(forest[..i]) + Preorder([forest[i]])
    ensures Preorder(forest) == Preorder(forest[..i]) + Preorder([forest[i]]) + Preorder(forest[i + 1..])
  {
    var front, here, back := forest[..i], [forest[i]], forest[i + 1..];
    CutAt(forest, i);
    PreorderConcat(front, here);
    PreorderConcat(front + here, back);
  }

  /** Checking a tree is checking its root and then the children's trees with the root's id taken. */
  lemma TreeIsRootAndChildren(
    agent: Agent, registered: set<string>, defaults: Option<AgentDefaults>, taken: set<string>)
    ensures AgentsOk(Preorder([agent]), registered, defaults, taken) <==>
      && AgentOk(agent, registered, defaults) && agent.id !in taken
      && AgentsOk(Preorder(agent.children), registered, defaults, taken + {agent.id})
    ensures Ids(Preorder([agent])) == {agent.id} + Ids(Preorder(agent.children))
    ensures agent in Preorder([agent])
  {
    PreorderOne(agent);
    AgentsOkConcat([agent], Preorder(agent.children), registered, defaults, taken);
    assert Ids([agent]) == {agent.id};
  }

  // --- Facts about lists of faults ------------------------------------------------------------------------

  lemma {:induction false} NodesAreListed(forest: seq<Agent>, parent: Option<Agent>)
    ensures AgentsOf(Nodes(forest, parent)) == Preorder(forest)
    decreases forest
  {
    if forest != [] {
      NodesAreListed(forest[0].children, Some(forest[0]));
      NodesAreListed(forest[1..], parent);
    }
  }

  lemma {:induction false} NodesConcat(a: seq<Agent>, b: seq<Agent>, parent: Option<Agent>)
    ensures Nodes(a + b, parent) == Nodes(a, parent) + Nodes(b, parent)
  {
    if a == [] {
      assert a + b == b;
    } else {
      assert (a + b)[1..] == a[1..] + b;
      NodesConcat(a[1..], b, parent);
    }
  }

  lemma NodesOne(a: Agent, parent: Option<Agent>)
    ensures Nodes([a], parent) == [Node(parent, a)] + Nodes(a.children, Some(a))
  {
    assert [a][1..] == [];
  }

  lemma {:induction false} FaultsConcat(
    a: seq<Node>, b: seq<Node>, registered: set<string>, defaults: Option<AgentDefaults>, taken: set<string>)
    ensures Faults(a + b, registered, defaults, taken)
         == Faults(a, registered, defaults, taken) + Faults(b, registered, defaults, taken + Ids(AgentsOf(a)))
    decreases |a|
  {
    if a == [] {
      assert a + b == b;
      assert taken + Ids(AgentsOf(a)) == taken;
    } else {
      var id, rest := a[0].agent.id, a[1..];
      TailOfConcat(a, b);
      FaultsConcat(rest, b, registered, defaults, taken + {id});
      IdsOfNodes(a);
      assert taken + {id} + Ids(AgentsOf(rest)) == taken + Ids(AgentsOf(a));
      ConcatAssoc(
        NodeFaults(a[0], registered, defaults, taken), Faults(rest, registered, defaults, taken + {id}),
        Faults(b, registered, defaults, taken + Ids(AgentsOf(a))));
    }
  }

  lemma IdsOfNodes(nodes: seq<Node>)
    requires nodes != []
    ensures Ids(AgentsOf(nodes)) == {nodes[0].agent.id} + Ids(AgentsOf(nodes[1..]))
  {
    var all, rest := AgentsOf(nodes), AgentsOf(nodes[1..]);
    assert all == [nodes[0].agent] + rest;
  }

  /** The faults of a tree: the root's own, then those of its children with its id taken. */
  lemma TreeFaults(
    a: Agent, parent: Option<Agent>, registered: set<string>, defaults: Option<AgentDefaults>, taken: set<string>)
    ensures Faults(Nodes([a], parent), registered, defaults, taken)
         == NodeFaults(Node(parent, a), registered, defaults, taken)
            + Faults(Nodes(a.children, Some(a)), registered, defaults, taken + {a.id})
  {
    NodesOne(a, parent);
    assert Nodes([a], parent)[1..] == Nodes(a.children, Some(a));
  }

  /** The faults of a forest cut at one tree. */
  lemma ForestFaults(
    forest: seq<Agent>, parent: Option<Agent>, i: nat,
    registered: set<string>, defaults: Option<AgentDefaults>, taken: set<string>)
    requires i < |forest|
    ensures var seen := taken + Ids(Preorder(forest[..i]));
      && Faults(Nodes(forest[..i + 1], parent), registered, defaults, taken)
         == Faults(Nodes(forest[..i], parent), registered, defaults, taken)
            + Faults(Nodes([forest[i]], parent), registered, defaults, seen)
      && Faults(Nodes(forest[..i + 1], parent), registered, defaults, taken)
         <= Faults(Nodes(forest, parent), registered, defaults, taken)
  {
    var front, here, back := forest[..i], [forest[i]], forest[i + 1..];
    CutAt(forest, i);
    NodesConcat(front, here, parent);
    NodesConcat(front + here, back, parent);
    NodesAreListed(front, parent);
    FaultsConcat(Nodes(front, parent), Nodes(here, parent), registered, defaults, taken);
    FaultsConcat(Nodes(front + here, parent), Nodes(back, parent), registered, defaults, taken);
  }

  /** The first tree with a fault has the forest's first fault. */
  lemma TreeDecides(
    forest: seq<Agent>, parent: Option<Agent>, i: nat,
    registered: set<string>, defaults: Option<AgentDefaults>, taken: set<string>, seen: set<string>)
    requires i < |forest| && seen == taken + Ids(Preorder(forest[..i]))
    requires Faults(Nodes(forest[..i], parent), registered, defaults, taken) == []
    ensures seen + Ids(Preorder([forest[i]])) == taken + Ids(Preorder(forest[..i + 1]))
    ensures var here := Faults(Nodes([forest[i]], parent), registered, defaults, seen);
      if here == [] then Faults(Nodes(forest[..i + 1], parent), registered, defaults, taken) == []
      else
        && Faults(Nodes(forest, parent), registered, defaults, taken) != []
        && Faults(Nodes(forest, parent), registered, defaults, taken)[0] == here[0]
  {
    SplitAtChild(forest, i);
    IdsConcat(Preorder(forest[..i]), Preorder([forest[i]]));
    ForestFaults(forest, parent, i, registered, defaults, taken);
    var here := Faults(Nodes([forest[i]], parent), registered, defaults, seen);
    assert Faults(Nodes(forest[..i + 1], parent), registered, defaults, taken) == [] + here;
  }

  /** A tree whose root is not named like its parent has the faults it would have as a root. */
  lemma FaultsAsRoot(
    a: Agent, parent: Agent, registered: set<string>, defaults: Option<AgentDefaults>, taken: set<string>)
    ensures a.id != parent.id ==>
      Faults(Nodes([a], Some(parent)), registered, defaults, taken)
        == Faults(Nodes([a], None), registered, defaults, taken)
    ensures a.id == parent.id ==>
      && Faults(Nodes([a], Some(parent)), registered, defaults, taken) != []
      && Faults(Nodes([a], Some(parent)), registered, defaults, taken)[0] == CyclicChildren(a.id)
  {
    TreeFaults(a, Some(parent), registered, defaults, taken);
    TreeFaults(a, None, registered, defaults, taken);
  }

  lemma {:induction false} UnknownToolsFacts(id: string, tools: seq<string>, registered: set<string>)
    ensures UnknownTools(id, tools, registered) == [] <==> forall t :: t in tools ==> t in registered
    ensures forall e :: e in UnknownTools(id, tools, registered) ==>
      e.UnknownToolReference? && e.agentId == id && e.toolId in tools && e.toolId !in registered
  {
    if tools != [] {
      UnknownToolsFacts(id, tools[1..], registered);
      assert forall t :: t in tools <==> t == tools[0] || t in tools[1..];
    }
  }

  /** An agent is free of faults exactly if it is fine by itself and its id is free; naming its parent takes its id. */
  lemma NodeIsFaultFreeIff(node: Node, registered: set<string>, defaults: Option<AgentDefaults>, taken: set<string>)
    requires node.parent.Some? ==> node.parent.value.id in taken
    ensures NodeFaults(node, registered, defaults, taken) == [] <==>
      AgentOk(node.agent, registered, defaults) && node.agent.id !in taken
  {
    UnknownToolsFacts(node.agent.id, node.agent.tools, registered);
  }

  /** The list of faults is empty exactly when the flat condition holds. */
  lemma {:induction false} FaultFreeIff(
    forest: seq<Agent>, parent: Option<Agent>, registered: set<string>, defaults: Option<AgentDefaults>,
    taken: set<string>)
    requires parent.Some? ==> parent.value.id in taken
    ensures Faults(Nodes(forest, parent), registered, defaults, taken) == [] <==>
            AgentsOk(Preorder(forest), registered, defaults, taken)
    decreases forest
  {
    if forest != [] {
      var first, rest := forest[0], forest[1..];
      var seen := taken + {first.id} + Ids(Preorder(first.children));
      assert forest == [first] + rest;
      FaultFreeIff(first.children, Some(first), registered, defaults, taken + {first.id});
      FaultFreeIff(rest, parent, registered, defaults, seen);
      NodeIsFaultFreeIff(Node(parent, first), registered, defaults, taken);
      TreeIsRootAndChildren(first, registered, defaults, taken);
      ForestIsTreeAndRest(first, rest, parent, registered, defaults, taken, seen);
    }
  }

  lemma ForestIsTreeAndRest(
    first: Agent, rest: seq<Agent>, parent: Option<Agent>,
    registered: set<string>, defaults: Option<AgentDefaults>, taken: set<string>, seen: set<string>)
    requires seen == taken + {first.id} + Ids(Preorder(first.children))
    ensures Preorder([first] + rest) == Preorder([first]) + Preorder(rest)
    ensures AgentsOk(Preorder([first] + rest), registered, defaults, taken) <==>
            && AgentsOk(Preorder([first]), registered, defaults, taken)
            && AgentsOk(Preorder(rest), registered, defaults, seen)
    ensures Faults(Nodes([first] + rest, parent), registered, defaults, taken)
         == NodeFaults(Node(parent, first), registered, defaults, taken)
            + Faults(Nodes(first.children, Some(first)), registered, defaults, taken + {first.id})
            + Faults(Nodes(rest, parent), registered, defaults, seen)
  {
    PreorderConcat([first], rest);
    TreeIsRootAndChildren(first, registered, defaults, taken);
    assert taken + Ids(Preorder([first])) == seen;
    AgentsOkConcat(Preorder([first]), Preorder(rest), registered, defaults, taken);
    NodesConcat([first], rest, parent);
    NodesAreListed([first], parent);
    FaultsConcat(Nodes([first], parent), Nodes(rest, parent), registered, defaults, taken);
    TreeFaults(first, parent, registered, defaults, taken);
  }

  /** A fault of a top agent that is named like the parent of the forest. */
  ghost predicate ParentFault(e: GraphError, forest: seq<Agent>, parent: Option<Agent>) {
    parent.Some? && exists c :: c in forest && c.id == parent.value.id && e == CyclicChildren(c.id)
  }

  lemma NodeFaultIsReal(
    e: GraphError, node: Node, registered: set<string>, defaults: Option<AgentDefaults>, taken: set<string>)
    requires e in NodeFaults(node, registered, defaults, taken)
    ensures (NamedLikeParent(node) && e == CyclicChildren(node.agent.id))
         || AgentFault(e, [node.agent], registered, defaults, taken)
  {
    UnknownToolsFacts(node.agent.id, node.agent.tools, registered);
    assert node.agent in [node.agent];
  }

  /** Every fault on the list is a fault of the listed agents. */
  lemma {:induction false} EveryFaultIsReal(
    e: GraphError, forest: seq<Agent>, parent: Option<Agent>,
    registered: set<string>, defaults: Option<AgentDefaults>, taken: set<string>)
    requires e in Faults(Nodes(forest, parent), registered, defaults, taken)
    ensures AgentFault(e, Preorder(forest), registered, defaults, taken) || ParentFault(e, forest, parent)
    decreases forest
  {
    var first, rest := forest[0], forest[1..];
    var kids := Preorder(first.children);
    var seen := taken + {first.id} + Ids(kids);
    assert forest == [first] + rest;
    assert Ids([first]) == {first.id};
    ForestIsTreeAndRest(first, rest, parent, registered, defaults, taken, seen);
    PreorderOne(first);
    if e in NodeFaults(Node(parent, first), registered, defaults, taken) {
      NodeFaultIsReal(e, Node(parent, first), registered, defaults, taken);
      RootFaultInForest(e, first, kids, Preorder(rest), parent, registered, defaults, taken);
    } else if e in Faults(Nodes(first.children, Some(first)), registered, defaults, taken + {first.id}) {
      EveryFaultIsReal(e, first.children, Some(first), registered, defaults, taken + {first.id});
      KidFaultInForest(e, first, kids, Preorder(rest), registered, defaults, taken);
    } else {
      EveryFaultIsReal(e, rest, parent, registered, defaults, seen);
      RestFaultInForest(e, first, kids, Preorder(rest), registered, defaults, taken);
    }
  }

  lemma RootFaultInForest(
    e: GraphError, first: Agent, kids: seq<Agent>, rest: seq<Agent>, parent: Option<Agent>,
    registered: set<string>, defaults: Option<AgentDefaults>, taken: set<string>)
    ensures AgentFault(e, [first], registered, defaults, taken) ==>
            AgentFault(e, [first] + kids + rest, registered, defaults, taken)
  {
    if AgentFault(e, [first], registered, defaults, taken) {
      assert taken + Ids([]) == taken && [] + [first] + (kids + rest) == [first] + kids + rest;
      FaultInPart(e, [], [first], kids + rest, registered, defaults, taken);
    }
  }

  lemma KidFaultInForest(
    e: GraphError, first: Agent, kids: seq<Agent>, rest: seq<Agent>,
    registered: set<string>, defaults: Option<AgentDefaults>, taken: set<string>)
    requires
      || AgentFault(e, kids, registered, defaults, taken + {first.id})
      || ParentFault(e, first.children, Some(first))
    ensures AgentFault(e, [first] + kids + rest, registered, defaults, taken)
  {
    assert Ids([first]) == {first.id};
    if AgentFault(e, kids, registered, defaults, taken + {first.id}) {
      FaultInPart(e, [first], kids, rest, registered, defaults, taken);
    } else {
      assert first in [first] + kids + rest;
    }
  }

  lemma RestFaultInForest(
    e: GraphError, first: Agent, kids: seq<Agent>, rest: seq<Agent>,
    registered: set<string>, defaults: Option<AgentDefaults>, taken: set<string>)
    ensures AgentFault(e, rest, registered, defaults, taken + {first.id} + Ids(kids)) ==>
            AgentFault(e, [first] + kids + rest, registered, defaults, taken)
  {
    if AgentFault(e, rest, registered, defaults, taken + {first.id} + Ids(kids)) {
      assert Ids([first] + kids) == {first.id} + Ids(kids);
      assert taken + Ids([first] + kids) == taken + {first.id} + Ids(kids);
      assert [first] + kids + rest + [] == [first] + kids + rest;
      FaultInPart(e, [first] + kids, rest, [], registered, defaults, taken);
    }
  }

  lemma {:induction false} ToolFaultsFacts(tools: seq<Tool>, front: seq<Tool>, taken: set<string>)
    requires taken == ToolIds(front)
    ensures ToolsOk(front) ==> (ToolFaults(tools, taken) == [] <==> ToolsOk(front + tools))
    ensures forall e :: e in ToolFaults(tools, taken) ==> ToolFault(e, front + tools)
    decreases |tools|
  {
    if tools == [] {
      assert front + tools == front;
    } else {
      var t, rest := tools[0], tools[1..];
      assert front + tools == front + [t] + rest;
      OneMoreTool(front, t, rest);
      ToolFaultsFacts(rest, front + [t], taken + {t.id});
    }
  }

  lemma OneMoreTool(front: seq<Tool>, t: Tool, rest: seq<Tool>)
    ensures ToolIds(front + [t]) == ToolIds(front) + {t.id}
    ensures ToolsOk(front + [t] + rest) ==> t.id !in ToolIds(front) && !(t.kind.Mcp? && IsBlank(t.kind.command))
    ensures ToolsOk(front) && t.id !in ToolIds(front) && !(t.kind.Mcp? && IsBlank(t.kind.command)) ==>
      ToolsOk(front + [t])
    ensures t.id in ToolIds(front) ==> ToolFault(DuplicateToolId(t.id), front + [t] + rest)
    ensures t.kind.Mcp? && IsBlank(t.kind.command) ==> ToolFault(EmptyMcpCommand(t.id), front + [t] + rest)
  {
    var all := front + [t] + rest;
    assert all[|front|] == t && forall i :: 0 <= i < |front| ==> all[i] == front[i];
    assert forall x :: x in front + [t] <==> x in front || x == t;
    assert t in all;
  }

  lemma {:induction false} TriggerFaultsFacts(triggers: seq<SeedTrigger>, ids: set<string>)
    ensures TriggerFaults(triggers, ids) == [] <==> forall t :: t in triggers ==> t.agent in ids && t.at == "start"
    ensures forall e :: e in TriggerFaults(triggers, ids) ==> SeedFault(e, triggers, ids)
  {
    if triggers != [] {
      TriggerFaultsFacts(triggers[1..], ids);
      assert forall t :: t in triggers <==> t == triggers[0] || t in triggers[1..];
    }
  }

  lemma HeaderFaultsFacts(g: Graph)
    ensures HeaderFaults(g) == [] <==>
      g.apiVersion == API_VERSION && g.kind == KIND && MatchesNamePattern(g.name) && g.agents != []
    ensures forall e :: e in HeaderFaults(g) ==> IsFaultOf(e, g)
  {
  }

  lemma ListedFaultsFacts(g: Graph)
    ensures Faults(Nodes(g.agents, None), ToolIds(g.tools), g.defaults, {}) == [] <==>
            AgentsOk(Preorder(g.agents), ToolIds(g.tools), g.defaults, {})
    ensures forall e :: e in Faults(Nodes(g.agents, None), ToolIds(g.tools), g.defaults, {}) ==> IsFaultOf(e, g)
  {
    var faults := Faults(Nodes(g.agents, None), ToolIds(g.tools), g.defaults, {});
    FaultFreeIff(g.agents, None, ToolIds(g.tools), g.defaults, {});
    forall e | e in faults ensures IsFaultOf(e, g) {
      EveryFaultIsReal(e, g.agents, None, ToolIds(g.tools), g.defaults, {});
    }
  }

  lemma ToolFaultsDecide(tools: seq<Tool>)
    ensures ToolFaults(tools, {}) == [] <==> ToolsOk(tools)
    ensures forall e :: e in ToolFaults(tools, {}) ==> ToolFault(e, tools)
  {
    assert [] + tools == tools;
    ToolFaultsFacts(tools, [], {});
  }

  lemma SeedFaultsDecide(g: Graph)
    ensures SeedFaults(g.triggers, Ids(Preorder(g.agents))) == [] <==> SeedsOk(g.triggers, Ids(Preorder(g.agents)))
    ensures forall e :: e in SeedFaults(g.triggers, Ids(Preorder(g.agents))) ==> IsFaultOf(e, g)
  {
    TriggerFaultsFacts(g.triggers, Ids(Preorder(g.agents)));
  }

  lemma FourParts<T>(a: seq<T>, b: seq<T>, c: seq<T>, d: seq<T>)
    ensures a + b + c + d == [] <==> a == [] && b == [] && c == [] && d == []
    ensures forall e :: e in a + b + c + d <==> e in a || e in b || e in c || e in d
  {
  }

  /** A document is valid exactly when it has no fault, and every fault on its list is real. */
  lemma FaultsDecideValidity(g: Graph)
    ensures DocumentFaults(g) == [] <==> IsValid(g)
    ensures forall e :: e in DocumentFaults(g) ==> IsFaultOf(e, g)
  {
    HeaderFaultsFacts(g);
    ToolFaultsDecide(g.tools);
    ListedFaultsFacts(g);
    SeedFaultsDecide(g);
    FourParts(
      HeaderFaults(g), ToolFaults(g.tools, {}), Faults(Nodes(g.agents, None), ToolIds(g.tools), g.defaults, {}),
      SeedFaults(g.triggers, Ids(Preorder(g.agents))));
  }

  // --- Which fault comes first ----------------------------------------------------------------------------

  ghost predicate NodePasses(node: Node, registered: set<string>, defaults: Option<AgentDefaults>, taken: set<string>) {
    !NamedLikeParent(node) && AgentOk(node.agent, registered, defaults) && node.agent.id !in taken
  }

  /** The checks of one agent in their order: its parent's id, its name, the ids before it, its cadence, its tools. */
  ghost predicate NodeStops(
    e: GraphError, node: Node, registered: set<string>, defaults: Option<AgentDefaults>, taken: set<string>)
  {
    var a := node.agent;
    match e
    case CyclicChildren(id) => id == a.id && NamedLikeParent(node)
    case InvalidName(field, value) =>
      field == "agents[].id" && value == a.id && !NamedLikeParent(node) && !MatchesNamePattern(a.id)
    case DuplicateAgentId(id) => id == a.id && !NamedLikeParent(node) && MatchesNamePattern(a.id) && a.id in taken
    case MissingMandateIdlePeriod(id) =>
      && id == a.id && !NamedLikeParent(node) && MatchesNamePattern(a.id) && a.id !in taken
      && a.mandate.idlePeriod.None? && (defaults.None? || defaults.value.idlePeriod.None?)
    case UnknownToolReference(id, tool) =>
      && id == a.id && !NamedLikeParent(node) && MatchesNamePattern(a.id) && a.id !in taken
      && (a.mandate.idlePeriod.Some? || (defaults.Some? && defaults.value.idlePeriod.Some?))
      && exists i :: FirstUnknown(a.tools, registered, i, tool)
    case _ => false
  }

  ghost predicate FirstUnknown(tools: seq<string>, registered: set<string>, i: int, tool: string) {
    && 0 <= i < |tools| && tools[i] == tool && tool !in registered
    && forall j :: 0 <= j < i ==> tools[j] in registered
  }

  lemma {:induction false} FirstUnknownTool(id: string, tools: seq<string>, registered: set<string>) returns (i: nat)
    requires UnknownTools(id, tools, registered) != []
    ensures i < |tools| && UnknownTools(id, tools, registered)[0] == UnknownToolReference(id, tools[i])
    ensures FirstUnknown(tools, registered, i, tools[i])
  {
    if tools[0] !in registered {
      return 0;
    }
    i := FirstUnknownTool(id, tools[1..], registered);
    assert forall j :: 0 < j < |tools| ==> tools[j] == tools[1..][j - 1];
    i := i + 1;
  }

  lemma NodeFaultComesFirst(
    node: Node, registered: set<string>, defaults: Option<AgentDefaults>, taken: set<string>)
    ensures var faults := NodeFaults(node, registered, defaults, taken);
      if faults == [] then NodePasses(node, registered, defaults, taken)
      else NodeStops(faults[0], node, registered, defaults, taken)
  {
    var a := node.agent;
    UnknownToolsFacts(a.id, a.tools, registered);
    if UnknownTools(a.id, a.tools, registered) != [] {
      var i := FirstUnknownTool(a.id, a.tools, registered);
    }
  }

  /** The agents listed before the `k`-th pass every check, and it fails one. */
  ghost predicate StopsAt(
    e: GraphError, nodes: seq<Node>, k: nat,
    registered: set<string>, defaults: Option<AgentDefaults>, taken: set<string>)
  {
    && k < |nodes|
    && (forall j :: 0 <= j < k ==> NodePasses(nodes[j], registered, defaults, taken + Ids(AgentsOf(nodes[..j]))))
    && NodeStops(e, nodes[k], registered, defaults, taken + Ids(AgentsOf(nodes[..k])))
  }

  lemma {:induction false} FirstFaultStops(
    nodes: seq<Node>, registered: set<string>, defaults: Option<AgentDefaults>, taken: set<string>) returns (k: nat)
    requires Faults(nodes, registered, defaults, taken) != []
    ensures StopsAt(Faults(nodes, registered, defaults, taken)[0], nodes, k, registered, defaults, taken)
    decreases |nodes|
  {
    var first, rest := nodes[0], nodes[1..];
    NodeFaultComesFirst(first, registered, defaults, taken);
    if NodeFaults(first, registered, defaults, taken) != [] {
      assert taken + Ids(AgentsOf(nodes[..0])) == taken;
      return 0;
    }
    k := FirstFaultStops(rest, registered, defaults, taken + {first.agent.id});
    StopsOneLater(
      Faults(rest, registered, defaults, taken + {first.agent.id})[0], nodes, k, registered, defaults, taken);
    k := k + 1;
  }

  lemma StopsOneLater(
    e: GraphError, nodes: seq<Node>, k: nat,
    registered: set<string>, defaults: Option<AgentDefaults>, taken: set<string>)
    requires nodes != [] && NodePasses(nodes[0], registered, defaults, taken)
    requires StopsAt(e, nodes[1..], k, registered, defaults, taken + {nodes[0].agent.id})
    ensures StopsAt(e, nodes, k + 1, registered, defaults, taken)
  {
    var rest, taken' := nodes[1..], taken + {nodes[0].agent.id};
    TakenBefore(nodes, k + 1, taken);
    forall j | 0 <= j < k + 1 ensures NodePasses(nodes[j], registered, defaults, taken + Ids(AgentsOf(nodes[..j]))) {
      if j > 0 {
        TakenBefore(nodes, j, taken);
        assert NodePasses(rest[j - 1], registered, defaults, taken' + Ids(AgentsOf(rest[..j - 1])));
      } else {
        assert taken + Ids(AgentsOf(nodes[..0])) == taken;
      }
    }
  }

  lemma TakenBefore(nodes: seq<Node>, j: nat, taken: set<string>)
    requires 0 < j < |nodes|
    ensures nodes[1..][j - 1] == nodes[j]
    ensures taken + Ids(AgentsOf(nodes[..j])) == taken + {nodes[0].agent.id} + Ids(AgentsOf(nodes[1..][..j - 1]))
  {
    IdsOfNodes(nodes[..j]);
    assert nodes[..j][1..] == nodes[1..][..j - 1];
  }

  /** The tools before the `i`-th are fine, and it repeats an id of theirs or, failing that, has a blank command. */
  ghost predicate ToolStops(e: GraphError, tools: seq<Tool>, i: nat) {
    && i < |tools| && ToolsOk(tools[..i])
    && match e
       case DuplicateToolId(id) => id == tools[i].id && id in ToolIds(tools[..i])
       case EmptyMcpCommand(id) =>
         id == tools[i].id && id !in ToolIds(tools[..i]) && tools[i].kind.Mcp? && IsBlank(tools[i].kind.command)
       case _ => false
  }

  lemma {:induction false} FirstToolFaultStops(tools: seq<Tool>, i: nat) returns (k: nat)
    requires i <= |tools| && ToolsOk(tools[..i]) && ToolFaults(tools[i..], ToolIds(tools[..i])) != []
    ensures ToolStops(ToolFaults(tools[i..], ToolIds(tools[..i]))[0], tools, k)
    decreases |tools| - i
  {
    var t, front := tools[i], tools[..i];
    var faults := ToolFaults(tools[i..], ToolIds(front));
    assert tools[i..][0] == t && tools[i..][1..] == tools[i + 1..];
    if t.id in ToolIds(front) || (t.kind.Mcp? && IsBlank(t.kind.command)) {
      return i;
    }
    ToolPasses(tools, i);
    assert faults == ToolFaults(tools[i + 1..], ToolIds(tools[..i + 1]));
    k := FirstToolFaultStops(tools, i + 1);
  }

  lemma ToolPasses(tools: seq<Tool>, i: nat)
    requires i < |tools| && ToolsOk(tools[..i])
    requires tools[i].id !in ToolIds(tools[..i]) && !(tools[i].kind.Mcp? && IsBlank(tools[i].kind.command))
    ensures ToolsOk(tools[..i + 1]) && ToolIds(tools[..i + 1]) == ToolIds(tools[..i]) + {tools[i].id}
  {
    assert tools[..i + 1] == tools[..i] + [tools[i]];
    OneMoreTool(tools[..i], tools[i], []);
  }

  /** The seeds before the `i`-th are fine, and it names no agent or, failing that, another moment than the start. */
  ghost predicate SeedStops(e: GraphError, triggers: seq<SeedTrigger>, ids: set<string>, i: nat) {
    && i < |triggers| && (forall j :: 0 <= j < i ==> triggers[j].agent in ids && triggers[j].at == "start")
    && match e
       case UnknownTriggerAgent(id) => id == triggers[i].agent && id !in ids
       case UnsupportedTriggerAt(at) => at == triggers[i].at && at != "start" && triggers[i].agent in ids
       case _ => false
  }

  lemma {:induction false} FirstTriggerFaultStops(triggers: seq<SeedTrigger>, ids: set<string>) returns (i: nat)
    requires TriggerFaults(triggers, ids) != []
    ensures SeedStops(TriggerFaults(triggers, ids)[0], triggers, ids, i)
  {
    if triggers[0].agent !in ids || triggers[0].at != "start" {
      return 0;
    }
    i := FirstTriggerFaultStops(triggers[1..], ids);
    assert forall j :: 0 < j < |triggers| ==> triggers[j] == triggers[1..][j - 1];
    i := i + 1;
  }

  ghost predicate HeaderOk(g: Graph) {
    g.apiVersion == API_VERSION && g.kind == KIND && MatchesNamePattern(g.name) && g.agents != []
  }

  /** The header's checks in their order: version, kind, name, agents. */
  ghost predicate HeaderStops(e: GraphError, g: Graph) {
    match e
    case UnsupportedApiVersion(actual) => actual == g.apiVersion && g.apiVersion != API_VERSION
    case UnsupportedKind(actual) => actual == g.kind && g.apiVersion == API_VERSION && g.kind != KIND
    case InvalidName(field, value) =>
      && field == "metadata.name" && value == g.name
      && g.apiVersion == API_VERSION && g.kind == KIND && !MatchesNamePattern(g.name)
    case NoAgents => g.apiVersion == API_VERSION && g.kind == KIND && MatchesNamePattern(g.name) && g.agents == []
    case _ => false
  }

  /** Everything checked before is fine, and this is what stops the document. */
  ghost predicate RejectedFor(e: GraphError, g: Graph) {
    var tools, ids := ToolIds(g.tools), Ids(Preorder(g.agents));
    || HeaderStops(e, g)
    || (HeaderOk(g) && exists i: nat :: ToolStops(e, g.tools, i))
    || (HeaderOk(g) && ToolsOk(g.tools) && exists k: nat :: StopsAt(e, Nodes(g.agents, None), k, tools, g.defaults, {}))
    || (HeaderOk(g) && ToolsOk(g.tools) && AgentsOk(Preorder(g.agents), tools, g.defaults, {})
        && (if g.triggers == [] then e == EmptySeedTriggers else exists i: nat :: SeedStops(e, g.triggers, ids, i)))
  }

  lemma FirstOfFour<T>(a: seq<T>, b: seq<T>, c: seq<T>, d: seq<T>)
    requires a + b + c + d != []
    ensures (a + b + c + d)[0] == if a != [] then a[0] else if b != [] then b[0] else if c != [] then c[0] else d[0]
  {
  }

  lemma HeaderFaultStops(g: Graph)
    ensures if HeaderFaults(g) == [] then HeaderOk(g) else HeaderStops(HeaderFaults(g)[0], g)
  {
  }

  lemma ToolFaultStops(tools: seq<Tool>)
    requires ToolFaults(tools, {}) != []
    ensures exists i: nat :: ToolStops(ToolFaults(tools, {})[0], tools, i)
  {
    assert tools[..0] == [] && tools[0..] == tools && ToolIds([]) == {};
    var i := FirstToolFaultStops(tools, 0);
  }

  lemma SeedFaultStops(triggers: seq<SeedTrigger>, ids: set<string>)
    requires SeedFaults(triggers, ids) != []
    ensures var e := SeedFaults(triggers, ids)[0];
      if triggers == [] then e == EmptySeedTriggers else exists i: nat :: SeedStops(e, triggers, ids, i)
  {
    if triggers != [] {
      var i := FirstTriggerFaultStops(triggers, ids);
    }
  }

  lemma FirstIsFirst(
    g: Graph, header: seq<GraphError>, tools: seq<GraphError>, listed: seq<GraphError>, seeds: seq<GraphError>)
    requires header + tools + listed + seeds != []
    requires if header == [] then HeaderOk(g) else HeaderStops(header[0], g)
    requires if tools == [] then ToolsOk(g.tools) else exists i: nat :: ToolStops(tools[0], g.tools, i)
    requires if listed == [] then AgentsOk(Preorder(g.agents), ToolIds(g.tools), g.defaults, {})
      else exists k: nat :: StopsAt(listed[0], Nodes(g.agents, None), k, ToolIds(g.tools), g.defaults, {})
    requires seeds != [] ==>
      if g.triggers == [] then seeds[0] == EmptySeedTriggers
      else exists i: nat :: SeedStops(seeds[0], g.triggers, Ids(Preorder(g.agents)), i)
    ensures RejectedFor((header + tools + listed + seeds)[0], g)
  {
    FirstOfFour(header, tools, listed, seeds);
  }

  /** The first fault of an invalid document is that of the first check that fails. */
  lemma FirstCheckThatFails(g: Graph)
    requires !IsValid(g)
    ensures DocumentFaults(g) != [] && RejectedFor(DocumentFaults(g)[0], g)
  {
    var tools, ids := ToolFaults(g.tools, {}), Ids(Preorder(g.agents));
    var listed, seeds := Faults(Nodes(g.agents, None), ToolIds(g.tools), g.defaults, {}), SeedFaults(g.triggers, ids);
    FaultsDecideValidity(g);
    HeaderFaultStops(g);
    ToolFaultsDecide(g.tools);
    ListedFaultsFacts(g);
    if tools != [] {
      ToolFaultStops(g.tools);
    }
    if listed != [] {
      var k := FirstFaultStops(Nodes(g.agents, None), ToolIds(g.tools), g.defaults, {});
    }
    if seeds != [] {
      SeedFaultStops(g.triggers, ids);
    }
    FirstIsFirst(g, HeaderFaults(g), tools, listed, seeds);
  }

  // --- The validator --------------------------------------------------------------------------------------

  /** The first tool the agent names and the document does not define. */
  method ValidateReferences(agent: Agent, registered: set<string>) returns (r: Result<(), GraphError>)
    ensures Reports(r, UnknownTools(agent.id, agent.tools, registered))
  {
    for i := 0 to |agent.tools|
      invariant UnknownTools(agent.id, agent.tools[i..], registered) == UnknownTools(agent.id, agent.tools, registered)
    {
      assert agent.tools[i..][0] == agent.tools[i] && agent.tools[i..][1..] == agent.tools[i + 1..];
      if agent.tools[i] !in registered {
        return Err(UnknownToolReference(agent.id, agent.tools[i]));
      }
    }
    r := Ok(());
  }

  /** The checks of one agent, its children aside. */
  method ValidateAgent(agent: Agent, registered: set<string>, defaults: Option<AgentDefaults>, seen: set<string>)
    returns (r: Result<(), GraphError>)
    ensures Reports(r, AgentFaults(agent, registered, defaults, seen))
  {
    var named := IsUrlPathSafeName(agent.id);
    if !named {
      return Err(InvalidName("agents[].id", agent.id));
    }
    if agent.id in seen {
      return Err(DuplicateAgentId(agent.id));
    }
    if agent.mandate.idlePeriod.None? && (defaults.None? || defaults.value.idlePeriod.None?) {
      return Err(MissingMandateIdlePeriod(agent.id));
    }
    r := ValidateReferences(agent, registered);
  }

  /** The recursion with early returns reports the first fault of the tree's flat listing. */
  method ValidateAgentTree(agent: Agent, registered: set<string>, defaults: Option<AgentDefaults>, seen: set<string>)
    returns (r: Result<(), GraphError>, seen': set<string>)
    ensures Reports(r, Faults(Nodes([agent], None), registered, defaults, seen))
    ensures r.Ok? <==> AgentsOk(Preorder([agent]), registered, defaults, seen)
    ensures r.Ok? ==> seen' == seen + Ids(Preorder([agent]))
    decreases agent, 1
  {
    FaultFreeIff([agent], None, registered, defaults, seen);
    TreeFaults(agent, None, registered, defaults, seen);
    seen' := seen;
    r := ValidateAgent(agent, registered, defaults, seen);
    if r.Err? {
      return;
    }
    r, seen' := ValidateChildren(agent, registered, defaults, seen + {agent.id});
    TreeIsRootAndChildren(agent, registered, defaults, seen);
  }

  method ValidateChildren(agent: Agent, registered: set<string>, defaults: Option<AgentDefaults>, seen: set<string>)
    returns (r: Result<(), GraphError>, seen': set<string>)
    ensures Reports(r, Faults(Nodes(agent.children, Some(agent)), registered, defaults, seen))
    ensures r.Ok? ==> seen' == seen + Ids(Preorder(agent.children))
    decreases agent, 0
  {
    var children := agent.children;
    seen' := seen;
    for i := 0 to |children|
      invariant Faults(Nodes(children[..i], Some(agent)), registered, defaults, seen) == []
      invariant seen' == seen + Ids(Preorder(children[..i]))
    {
      TreeDecides(children, Some(agent), i, registered, defaults, seen, seen');
      r, seen' := ValidateChild(children[i], agent, registered, defaults, seen');
      if r.Err? {
        return;
      }
    }
    assert children[..|children|] == children;
    r := Ok(());
  }

  method ValidateChild(
    child: Agent, parent: Agent, registered: set<string>, defaults: Option<AgentDefaults>, seen: set<string>)
    returns (r: Result<(), GraphError>, seen': set<string>)
    ensures Reports(r, Faults(Nodes([child], Some(parent)), registered, defaults, seen))
    ensures r.Ok? ==> seen' == seen + Ids(Preorder([child]))
    decreases child, 2
  {
    FaultsAsRoot(child, parent, registered, defaults, seen);
    seen' := seen;
    if child.id == parent.id {
      return Err(CyclicChildren(child.id)), seen';
    }
    r, seen' := ValidateAgentTree(child, registered, defaults, seen);
  }

  lemma IdsConcat(a: seq<Agent>, b: seq<Agent>)
    ensures Ids(a + b) == Ids(a) + Ids(b)
  {
  }

  method ValidateTools(tools: seq<Tool>) returns (r: Result<(), GraphError>)
    ensures Reports(r, ToolFaults(tools, {}))
    ensures r.Ok? <==> ToolsOk(tools)
  {
    var seen := {};
    ToolFaultsDecide(tools);
    for i := 0 to |tools|
      invariant ToolFaults(tools[i..], seen) == ToolFaults(tools, {})
    {
      var tool := tools[i];
      assert tools[i..][0] == tool && tools[i..][1..] == tools[i + 1..];
      if tool.id in seen {
        return Err(DuplicateToolId(tool.id));
      }
      seen := seen + {tool.id};
      if tool.kind.Mcp? && IsBlank(tool.kind.command) {
        return Err(EmptyMcpCommand(tool.id));
      }
    }
    r := Ok(());
  }

  method ValidateForest(forest: seq<Agent>, registered: set<string>, defaults: Option<AgentDefaults>)
    returns (r: Result<set<string>, GraphError>)
    ensures Reports(r, Faults(Nodes(forest, None), registered, defaults, {}))
    ensures r.Ok? ==> r.value == Ids(Preorder(forest))
  {
    ghost var none := {};
    var seen := {};
    for i := 0 to |forest|
      invariant Faults(Nodes(forest[..i], None), registered, defaults, none) == []
      invariant seen == none + Ids(Preorder(forest[..i]))
    {
      TreeDecides(forest, None, i, registered, defaults, none, seen);
      var tree;
      tree, seen := ValidateAgentTree(forest[i], registered, defaults, seen);
      if tree.Err? {
        return Err(tree.error);
      }
    }
    assert forest[..|forest|] == forest;
    r := Ok(seen);
  }

  method ValidateSeeds(triggers: seq<SeedTrigger>, ids: set<string>) returns (r: Result<(), GraphError>)
    ensures Reports(r, SeedFaults(triggers, ids))
  {
    if triggers == [] {
      return Err(EmptySeedTriggers);
    }
    for i := 0 to |triggers|
      invariant TriggerFaults(triggers[i..], ids) == TriggerFaults(triggers, ids)
    {
      var trigger := triggers[i];
      assert triggers[i..][0] == trigger && triggers[i..][1..] == triggers[i + 1..];
      if trigger.agent !in ids {
        return Err(UnknownTriggerAgent(trigger.agent));
      }
      if trigger.at != "start" {
        return Err(UnsupportedTriggerAt(trigger.at));
      }
    }
    r := Ok(());
  }

  method ValidateHeader(g: Graph) returns (r: Result<(), GraphError>)
    ensures Reports(r, HeaderFaults(g))
  {
    if g.apiVersion != API_VERSION {
      return Err(UnsupportedApiVersion(g.apiVersion));
    }
    if g.kind != KIND {
      return Err(UnsupportedKind(g.kind));
    }
    var named := IsUrlPathSafeName(g.name);
    if !named {
      return Err(InvalidName("metadata.name", g.name));
    }
    r := if g.agents == [] then Err(NoAgents) else Ok(());
  }

  /** Accepts exactly the valid documents, and otherwise reports the first of all the document's faults. */
  method Validate(g: Graph) returns (r: Result<(), GraphError>)
    ensures Reports(r, DocumentFaults(g))
    ensures r.Ok? <==> IsValid(g)
    ensures r.Err? ==> IsFaultOf(r.error, g) && RejectedFor(r.error, g)
  {
    FaultsDecideValidity(g);
    if !IsValid(g) {
      FirstCheckThatFails(g);
    }
    r := ValidateHeader(g);
    if r.Err? {
      return;
    }
    r := ValidateTools(g.tools);
    if r.Err? {
      return;
    }
    var forest := ValidateForest(g.agents, ToolIds(g.tools), g.defaults);
    if forest.Err? {
      return Err(forest.error);
    }
    r := ValidateSeeds(g.triggers, forest.value);
  }

  /** The parent-equals-child check only renames an error: such a document is not valid anyway. */
  lemma CyclicChildrenIsADuplicate(g: Graph, p: Agent, c: Agent)
    requires p in Preorder(g.agents) && c in p.children && p.id == c.id
    ensures !IsValid(g)
  {
    var i, j := ChildComesLater(g.agents, p, c);
    assert !DistinctIds(Preorder(g.agents));
  }

  /** In the listing a child stands at a later place than its parent. */
  lemma {:induction false} ChildComesLater(forest: seq<Agent>, p: Agent, c: Agent) returns (i: nat, j: nat)
    requires p in Preorder(forest) && c in p.children
    ensures i < j < |Preorder(forest)| && Preorder(forest)[i] == p && Preorder(forest)[j] == c
    decreases forest
  {
    var first, below, others := forest[0], forest[0].children, forest[1..];
    var kids, rest := Preorder(below), Preorder(others);
    InThreeParts(first, kids, rest, p);
    if p == first {
      var k := TopIsListed(below, c);
      i, j := 0, k + 1;
      ShiftedPlaces([first], kids, rest, k);
    } else if p in kids {
      i, j := ChildComesLater(below, p, c);
      ShiftedPlaces([first], kids, rest, i);
      ShiftedPlaces([first], kids, rest, j);
      i, j := i + 1, j + 1;
    } else {
      i, j := ChildComesLater(others, p, c);
      LastPlaces(first, kids, rest, i);
      LastPlaces(first, kids, rest, j);
      i, j := i + 1 + |kids|, j + 1 + |kids|;
    }
  }

  lemma InThreeParts(first: Agent, kids: seq<Agent>, rest: seq<Agent>, p: Agent)
    ensures p in [first] + kids + rest <==> p == first || p in kids || p in rest
    ensures ([first] + kids + rest)[0] == first
  {
  }

  lemma LastPlaces(first: Agent, kids: seq<Agent>, rest: seq<Agent>, i: nat)
    requires i < |rest|
    ensures ([first] + kids + rest)[i + 1 + |kids|] == rest[i]
  {
  }

  lemma ShiftedPlaces(a: seq<Agent>, b: seq<Agent>, c: seq<Agent>, i: nat)
    requires i < |b|
    ensures (a + b + c)[|a| + i] == b[i]
  {
  }

  lemma TopIsListed(forest: seq<Agent>, c: Agent) returns (k: nat)
    requires c in forest
    ensures k < |Preorder(forest)| && Preorder(forest)[k] == c
  {
    var i :| 0 <= i < |forest| && forest[i] == c;
    SplitAtChild(forest, i);
    PreorderOne(c);
    k := |Preorder(forest[..i])|;
  }
}
