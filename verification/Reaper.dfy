/**
 The reaper's sweep over many graphs: one map of trackers and one set of tombstones, updated graph by graph in a
 loop. Each graph fares as if it were alone, and is signalled exactly when its own unbroken history calls for it.
 */
module Reaper {
  import opened Wrappers
  import opened Sorting
  import opened Quiescence

  type GraphId = string

  /** What asking for one agent's state came to. */
  datatype AgentReport = Closed | Failed | Running(snapshot: Snapshot)

  datatype AgentRow = AgentRow(agent: AgentId, report: AgentReport)

  /** One graph's part of a sweep: its agents, or `None` if they could not be listed. */
  type Listing = Option<seq<AgentRow>>

  function LiveOf(agents: seq<AgentRow>): seq<Observation> {
    if agents == [] then []
    else
      var last := agents[|agents| - 1];
      LiveOf(agents[..|agents| - 1])
        + (if last.report.Running? then [Observation(last.agent, last.report.snapshot)] else [])
  }

  /** The live agents in listing order, unless one could not be read or none is left. */
  function SeenIn(listing: Listing): Option<seq<Observation>> {
    if listing.None? || (exists a :: a in listing.value && a.report.Failed?) || LiveOf(listing.value) == [] then None
    else Some(LiveOf(listing.value))
  }

  /** `seen` shows the running rows, each with its snapshot, in listing order. */
  ghost predicate ShowsRunning(agents: seq<AgentRow>, seen: seq<Observation>) {
    var running := Filter(agents, (a: AgentRow) => a.report.Running?);
    && |seen| == |running|
    && forall i :: 0 <= i < |seen| ==> running[i] == AgentRow(seen[i].agent, Running(seen[i].snapshot))
  }

  /** The agents signalled are those of the running rows, in listing order. */
  ghost predicate SignalsRunning(agents: seq<AgentRow>, ids: seq<AgentId>) {
    var running := Filter(agents, (a: AgentRow) => a.report.Running?);
    |ids| == |running| && forall i :: 0 <= i < |ids| ==> running[i].agent == ids[i]
  }

  lemma {:induction false} LiveAreRunning(agents: seq<AgentRow>)
    ensures ShowsRunning(agents, LiveOf(agents))
    ensures LiveOf(agents) != [] <==> exists a :: a in agents && a.report.Running?
  {
    if agents != [] {
      var n := |agents| - 1;
      LiveAreRunning(agents[..n]);
      assert agents == agents[..n] + [agents[n]];
      FilterConcat(agents[..n], [agents[n]], (a: AgentRow) => a.report.Running?);
      assert agents[n] in agents && forall a :: a in agents <==> a in agents[..n] || a == agents[n];
    }
  }

  /** The graph could be listed, no agent failed to answer, and some agent runs. */
  ghost predicate Readable(listing: Listing) {
    && listing.Some?
    && (forall a :: a in listing.value ==> !a.report.Failed?)
    && (exists a :: a in listing.value && a.report.Running?)
  }

  /** A graph is observed exactly if it is readable, and then by its running rows. */
  lemma SeenIffReadable(listing: Listing)
    ensures SeenIn(listing).Some? <==> Readable(listing)
    ensures SeenIn(listing).Some? ==> ShowsRunning(listing.value, SeenIn(listing).value)
  {
    if listing.Some? {
      LiveAreRunning(listing.value);
    }
  }

  /** One agent that could not be read and the whole graph is not observed. */
  method ObserveGraph(agents: seq<AgentRow>) returns (r: Option<seq<Observation>>)
    ensures r == SeenIn(Some(agents))
    ensures r.Some? <==> Readable(Some(agents))
    ensures r.Some? ==> ShowsRunning(agents, r.value)
  {
    SeenIffReadable(Some(agents));
    var out := [];
    for i := 0 to |agents|
      invariant out == LiveOf(agents[..i]) && forall k :: 0 <= k < i ==> !agents[k].report.Failed?
    {
      assert agents[..i + 1][..i] == agents[..i];
      match agents[i].report
      case Running(snapshot) =>
        out := out + [Observation(agents[i].agent, snapshot)];
      case Closed =>
      case Failed =>
        assert agents[i] in agents;
        return None;
    }
    assert agents[..|agents|] == agents;
    r := if out == [] then None else Some(out);
  }

  function IdsOf(agents: seq<Observation>): seq<AgentId> {
    seq(|agents|, i requires 0 <= i < |agents| => agents[i].agent)
  }

  /** Every agent is signalled, also after a failure; the answer says whether all signals landed. */
  method RetireGraph(agents: seq<Observation>, lands: AgentId -> bool) returns (allOk: bool, signalled: seq<AgentId>)
    ensures allOk <==> AllLand(agents, lands)
    ensures signalled == IdsOf(agents)
  {
    allOk := true;
    signalled := [];
    for i := 0 to |agents|
      invariant |signalled| == i && forall k :: 0 <= k < i ==> signalled[k] == agents[k].agent
      invariant allOk <==> forall k :: 0 <= k < i ==> lands(agents[k].agent)
    {
      signalled := signalled + [agents[i].agent];
      if !lands(agents[i].agent) {
        allOk := false;
      }
    }
  }

  // --- One graph on its own -------------------------------------------------------------------------------

  /** What the reaper keeps about a graph: the samples since its last interruption, and whether it is done. */
  datatype GraphState = GraphState(history: seq<Sample>, tombstoned: bool)

  /** A graph the reaper has not met yet. */
  const NEW := GraphState([], false)

  /** A sweep as one graph sees it: it is no longer listed, or here are its agents and where signals would land. */
  datatype Visit = Gone | Visit(listing: Listing, lands: AgentId -> bool)

  predicate AllLand(agents: seq<Observation>, lands: AgentId -> bool) {
    forall o :: o in agents ==> lands(o.agent)
  }

  ghost predicate Signals(g: GraphState, margin: nat, now: nat, visit: Visit) {
    && !g.tombstoned && visit.Visit? && SeenIn(visit.listing).Some?
    && Replay(g.history + [Sample(now, SeenIn(visit.listing).value)], margin).1 == Retire
  }

  /** A graph is signalled exactly when its uninterrupted samples, this one included, call for it. */
  lemma SignalledIffHistoryIsDue(g: GraphState, margin: nat, now: nat, visit: Visit)
    ensures Signals(g, margin, now, visit) <==>
      && !g.tombstoned && visit.Visit? && SeenIn(visit.listing).Some?
      && RetireDue(g.history + [Sample(now, SeenIn(visit.listing).value)], margin)
  {
    if visit.Visit? && SeenIn(visit.listing).Some? {
      DebounceRefinesHistory(g.history + [Sample(now, SeenIn(visit.listing).value)], margin);
    }
  }

  ghost function AfterVisit(g: GraphState, margin: nat, now: nat, visit: Visit): GraphState {
    if visit.Gone? then g.(history := [])
    else if g.tombstoned then g
    else if SeenIn(visit.listing).None? then g.(history := [])
    else if Signals(g, margin, now, visit) then GraphState([], AllLand(SeenIn(visit.listing).value, visit.lands))
    else g.(history := g.history + [Sample(now, SeenIn(visit.listing).value)])
  }

  /** A graph without a tombstone fares as its tracker does when the visit's observation is handed to it. */
  lemma VisitIsTrackerStep(g: GraphState, margin: nat, now: nat, visit: Visit)
    requires visit.Visit? && !g.tombstoned
    ensures Visited(Replay(g.history, margin).0, margin, now, SeenIn(visit.listing))
         == (Replay(AfterVisit(g, margin, now, visit).history, margin).0,
             if Signals(g, margin, now, visit) then Retire else Wait)
  {
    if SeenIn(visit.listing).Some? {
      ReplaySnoc(g.history, Sample(now, SeenIn(visit.listing).value), margin);
    }
  }

  /** One sweep over the graph: its clock reading and what it found. */
  datatype Pass = Pass(now: nat, visit: Visit)

  /** Where the graph stands after the first `n` passes. */
  ghost function AfterPasses(g: GraphState, margin: nat, passes: seq<Pass>, n: nat): GraphState
    requires n <= |passes|
  {
    if n == 0 then g
    else AfterVisit(AfterPasses(g, margin, passes, n - 1), margin, passes[n - 1].now, passes[n - 1].visit)
  }

  /** The `k`-th pass signals the graph. */
  ghost predicate SignalsAt(g: GraphState, margin: nat, passes: seq<Pass>, k: nat)
    requires k < |passes|
  {
    Signals(AfterPasses(g, margin, passes, k), margin, passes[k].now, passes[k].visit)
  }

  /** The `k`-th pass signals the graph and every signal lands. */
  ghost predicate BuriesAt(g: GraphState, margin: nat, passes: seq<Pass>, k: nat)
    requires k < |passes|
  {
    SignalsAt(g, margin, passes, k) && AllLand(SeenIn(passes[k].visit.listing).value, passes[k].visit.lands)
  }

  lemma PassKeepsTombstone(g: GraphState, margin: nat, passes: seq<Pass>, k: nat)
    requires k < |passes| && AfterPasses(g, margin, passes, k).tombstoned
    ensures AfterPasses(g, margin, passes, k + 1).tombstoned && !SignalsAt(g, margin, passes, k)
  {
  }

  lemma BurialLeavesTombstone(g: GraphState, margin: nat, passes: seq<Pass>, k: nat)
    requires k < |passes| && BuriesAt(g, margin, passes, k)
    ensures AfterPasses(g, margin, passes, k + 1).tombstoned
  {
  }

  lemma NewTombstone(g: GraphState, margin: nat, passes: seq<Pass>, k: nat)
    requires k < |passes| && !AfterPasses(g, margin, passes, k).tombstoned
    requires AfterPasses(g, margin, passes, k + 1).tombstoned
    ensures BuriesAt(g, margin, passes, k)
  {
  }

  lemma {:induction false} TombstoneStays(g: GraphState, margin: nat, passes: seq<Pass>, j: nat, n: nat)
    requires j < n <= |passes| && AfterPasses(g, margin, passes, j + 1).tombstoned
    ensures AfterPasses(g, margin, passes, n).tombstoned
    decreases n - j
  {
    if j + 1 < n {
      PassKeepsTombstone(g, margin, passes, j + 1);
      TombstoneStays(g, margin, passes, j + 1, n);
    }
  }

  /** Over every run of sweeps: a graph that gained a tombstone was signalled in some pass, and all signals landed. */
  lemma {:induction false} TombstoneIsABurial(g: GraphState, margin: nat, passes: seq<Pass>, n: nat) returns (k: nat)
    requires n <= |passes| && !g.tombstoned && AfterPasses(g, margin, passes, n).tombstoned
    ensures k < n && BuriesAt(g, margin, passes, k)
  {
    k := n - 1;
    if AfterPasses(g, margin, passes, n - 1).tombstoned {
      k := TombstoneIsABurial(g, margin, passes, n - 1);
    } else {
      NewTombstone(g, margin, passes, n - 1);
    }
  }

  /** Over every run of sweeps: after a pass whose signals all landed, no later pass signals the graph again. */
  lemma TombstoneIsFinal(g: GraphState, margin: nat, passes: seq<Pass>, j: nat, k: nat)
    requires j < k < |passes| && BuriesAt(g, margin, passes, j)
    ensures !SignalsAt(g, margin, passes, k)
  {
    BurialLeavesTombstone(g, margin, passes, j);
    TombstoneStays(g, margin, passes, j, k);
    PassKeepsTombstone(g, margin, passes, k);
  }

  /** The `k`-th pass leaves nothing of the graph's history: it is not listed, not readable, or signalled. */
  ghost predicate Interrupts(g: GraphState, margin: nat, passes: seq<Pass>, k: nat)
    requires k < |passes|
  {
    passes[k].visit.Gone? || !Readable(passes[k].visit.listing) || SignalsAt(g, margin, passes, k)
  }

  /** The sample carries the pass's clock reading and its running rows. */
  ghost predicate ShowsPass(sample: Sample, pass: Pass) {
    && sample.now == pass.now && pass.visit.Visit? && pass.visit.listing.Some?
    && ShowsRunning(pass.visit.listing.value, sample.agents)
  }

  /** The history holds one sample for each of the passes `j..n`. */
  ghost predicate ShowsPasses(history: seq<Sample>, passes: seq<Pass>, j: nat, n: nat)
    requires j <= n <= |passes|
  {
    && |history| == n - j
    && forall i :: 0 <= i < n - j ==> ShowsPass(history[i], passes[j + i])
  }

  /** The passes `j..n` are those since the last interruption, and the history shows them. */
  ghost predicate IsUnbroken(margin: nat, passes: seq<Pass>, j: nat, n: nat) {
    && j <= n <= |passes| && (j > 0 ==> Interrupts(NEW, margin, passes, j - 1))
    && (forall k :: j <= k < n ==> !Interrupts(NEW, margin, passes, k))
    && ShowsPasses(AfterPasses(NEW, margin, passes, n).history, passes, j, n)
  }

  /** A graph's history is what was seen of it since the last interruption, as long as it has no tombstone. */
  lemma {:induction false} HistoryIsUnbrokenStretch(margin: nat, passes: seq<Pass>, n: nat) returns (j: nat)
    requires n <= |passes| && !AfterPasses(NEW, margin, passes, n).tombstoned
    ensures IsUnbroken(margin, passes, j, n)
    decreases n
  {
    if n == 0 {
      NothingSeenYet(margin, passes);
      return 0;
    }
    var m := n - 1;
    StretchStep(margin, passes, m);
    if Interrupts(NEW, margin, passes, m) {
      return n;
    }
    j := HistoryIsUnbrokenStretch(margin, passes, m);
  }

  lemma NothingSeenYet(margin: nat, passes: seq<Pass>)
    ensures IsUnbroken(margin, passes, 0, 0)
  {
  }

  lemma StretchStep(margin: nat, passes: seq<Pass>, n: nat)
    requires n < |passes| && !AfterPasses(NEW, margin, passes, n + 1).tombstoned
    ensures !AfterPasses(NEW, margin, passes, n).tombstoned
    ensures if Interrupts(NEW, margin, passes, n) then IsUnbroken(margin, passes, n + 1, n + 1)
      else forall j :: IsUnbroken(margin, passes, j, n) ==> IsUnbroken(margin, passes, j, n + 1)
  {
    var before := AfterPasses(NEW, margin, passes, n);
    var sample := HistoryStep(before, margin, passes[n]);
    assert Signals(before, margin, passes[n].now, passes[n].visit) == SignalsAt(NEW, margin, passes, n);
    if !Interrupts(NEW, margin, passes, n) {
      forall j | IsUnbroken(margin, passes, j, n) ensures IsUnbroken(margin, passes, j, n + 1) {
        ShowsOneMore(before.history, sample, passes, j, n);
      }
    }
  }

  /** A pass over a graph that has no tombstone afterwards: its sample joins the history, or the history is dropped. */
  lemma HistoryStep(g: GraphState, margin: nat, pass: Pass) returns (sample: Sample)
    requires !AfterVisit(g, margin, pass.now, pass.visit).tombstoned
    ensures !g.tombstoned
    ensures var after := AfterVisit(g, margin, pass.now, pass.visit).history;
      if pass.visit.Gone? || !Readable(pass.visit.listing) || Signals(g, margin, pass.now, pass.visit) then after == []
      else after == g.history + [sample] && ShowsPass(sample, pass)
  {
    SeenAtPass(pass);
    sample := Sample(pass.now, []);
    if pass.visit.Visit? && Readable(pass.visit.listing) {
      sample := Sample(pass.now, SeenIn(pass.visit.listing).value);
    }
  }

  lemma ShowsOneMore(history: seq<Sample>, sample: Sample, passes: seq<Pass>, j: nat, n: nat)
    requires j <= n < |passes| && ShowsPasses(history, passes, j, n) && ShowsPass(sample, passes[n])
    ensures ShowsPasses(history + [sample], passes, j, n + 1)
  {
    var longer := history + [sample];
    forall i | 0 <= i < n + 1 - j ensures ShowsPass(longer[i], passes[j + i]) {
      if i < n - j {
        assert longer[i] == history[i];
      }
    }
  }

  lemma SeenAtPass(pass: Pass)
    ensures pass.visit.Visit? ==>
      && (SeenIn(pass.visit.listing).Some? <==> Readable(pass.visit.listing))
      && (Readable(pass.visit.listing) ==> ShowsRunning(pass.visit.listing.value, SeenIn(pass.visit.listing).value))
  {
    if pass.visit.Visit? {
      SeenIffReadable(pass.visit.listing);
    }
  }

  // --- The sweep ------------------------------------------------------------------------------------------

  class Sweeper {
    const margin: nat
    var trackers: map<GraphId, Tracker>
    var retired: set<GraphId>
    /** The samples each tracker has taken in. */
    ghost var histories: map<GraphId, seq<Sample>>

    ghost predicate Valid()
      reads this
    {
      && trackers.Keys == histories.Keys
      && forall g :: g in trackers ==> trackers[g] == Replay(histories[g], margin).0
    }

    ghost function StateOf(g: GraphId): GraphState
      reads this
    {
      GraphState(if g in histories then histories[g] else [], g in retired)
    }

    constructor (margin: nat)
      ensures Valid() && this.margin == margin && forall g :: StateOf(g) == NEW
    {
      this.margin := margin;
      trackers, retired, histories := map[], {}, map[];
    }

    /**
     Every graph's state moves as if it were swept alone. Exactly the graphs that are due are signalled, each with
     all its running agents in listing order.
     */
    method Sweep(graphs: seq<GraphId>, now: nat, listingOf: GraphId -> Listing, lands: GraphId -> AgentId -> bool)
      returns (signalled: map<GraphId, seq<AgentId>>)
      requires Valid() && Distinct(graphs)
      modifies this
      ensures Valid()
      ensures forall g :: StateOf(g) == AfterVisit(old(StateOf(g)), margin, now, VisitOf(graphs, listingOf, lands, g))
      ensures forall g :: g in signalled <==>
        Signals(old(StateOf(g)), margin, now, VisitOf(graphs, listingOf, lands, g))
      ensures forall g :: g in signalled ==>
        g in graphs && Readable(listingOf(g)) && SignalsRunning(listingOf(g).value, signalled[g])
      ensures forall g :: g in graphs && g !in old(retired) && !Readable(listingOf(g)) ==> StateOf(g).history == []
    {
      UnreadableIsForgotten(graphs, now, listingOf, lands);
      KeepListed(graphs);
      signalled := map[];
      for i := 0 to |graphs|
        invariant Valid()
        invariant forall g :: StateOf(g) == StateAt(old(StateOf(g)), now, graphs, i, listingOf, lands, g)
        invariant forall g :: g in signalled <==>
          g in graphs[..i] && Signals(old(StateOf(g)), margin, now, VisitOf(graphs, listingOf, lands, g))
        invariant forall g :: g in signalled ==> listingOf(g).Some? && SignalsRunning(listingOf(g).value, signalled[g])
      {
        var g := graphs[i];
        NextGraph(graphs, i);
        var due, ids := VisitGraph(g, now, listingOf(g), lands(g));
        if due {
          signalled := signalled[g := ids];
        }
      }
      assert graphs[..|graphs|] == graphs;
    }

    /** A graph that is not readable is not signalled, and its history is dropped. */
    lemma UnreadableIsForgotten(
      graphs: seq<GraphId>, now: nat, listingOf: GraphId -> Listing, lands: GraphId -> AgentId -> bool)
      ensures forall g, before: GraphState ::
        Signals(before, margin, now, VisitOf(graphs, listingOf, lands, g)) ==> g in graphs && Readable(listingOf(g))
      ensures forall g, before: GraphState :: g in graphs && !before.tombstoned && !Readable(listingOf(g)) ==>
        AfterVisit(before, margin, now, VisitOf(graphs, listingOf, lands, g)).history == []
    {
      forall g ensures SeenIn(listingOf(g)).Some? <==> Readable(listingOf(g)) {
        SeenIffReadable(listingOf(g));
      }
    }

    /** Where a graph stands once the first `i` listed graphs have been visited. */
    ghost function StateAt(before: GraphState, now: nat, graphs: seq<GraphId>, i: nat, listingOf: GraphId -> Listing,
                           lands: GraphId -> AgentId -> bool, g: GraphId): GraphState
      requires i <= |graphs|
    {
      if g in graphs[i..] then before else AfterVisit(before, margin, now, VisitOf(graphs, listingOf, lands, g))
    }

    /** Trackers of graphs that are no longer listed are dropped. */
    method KeepListed(graphs: seq<GraphId>)
      requires Valid()
      modifies `trackers, `histories
      ensures Valid()
      ensures forall g :: StateOf(g) == if g in graphs then old(StateOf(g)) else old(StateOf(g)).(history := [])
    {
      trackers := map g | g in trackers && g in graphs :: trackers[g];
      histories := map g | g in histories && g in graphs :: histories[g];
    }

    method VisitGraph(g: GraphId, now: nat, listing: Listing, lands: AgentId -> bool)
      returns (due: bool, signalled: seq<AgentId>)
      requires Valid()
      modifies this
      ensures Valid()
      ensures due <==> Signals(old(StateOf(g)), margin, now, Visit(listing, lands))
      ensures if due then listing.Some? && SignalsRunning(listing.value, signalled) else signalled == []
      ensures StateOf(g) == AfterVisit(old(StateOf(g)), margin, now, Visit(listing, lands))
      ensures forall other :: other != g ==> StateOf(other) == old(StateOf(other))
    {
      if g in retired {
        return false, [];
      }
      SeenIffReadable(listing);
      var seen := Assess(listing);
      if seen.None? {
        Forget(g);
        return false, [];
      }
      ghost var before := StateOf(g);
      due := Observe(g, now, seen.value);
      assert due <==> Signals(before, margin, now, Visit(listing, lands));
      signalled := [];
      if due {
        Forget(g);
        var allOk;
        allOk, signalled := RetireGraph(seen.value, lands);
        if allOk {
          Bury(g);
        }
      }
    }

    method Assess(listing: Listing) returns (seen: Option<seq<Observation>>)
      ensures seen == SeenIn(listing)
    {
      if listing.None? {
        return None;
      }
      seen := ObserveGraph(listing.value);
    }

    /** The graph's tracker, made if missing, takes in one more sample. */
    method Observe(g: GraphId, now: nat, seen: seq<Observation>) returns (due: bool)
      requires Valid()
      modifies `trackers, `histories
      ensures Valid()
      ensures due <==> Replay(old(StateOf(g)).history + [Sample(now, seen)], margin).1 == Retire
      ensures StateOf(g) == old(StateOf(g)).(history := old(StateOf(g)).history + [Sample(now, seen)])
      ensures forall other :: other != g ==> StateOf(other) == old(StateOf(other))
    {
      var before := if g in trackers then trackers[g] else FRESH;
      ghost var history := StateOf(g).history + [Sample(now, seen)];
      ReplaySnoc(StateOf(g).history, Sample(now, seen), margin);
      var step := Next(before, margin, Sample(now, seen));
      trackers := trackers[g := step.0];
      histories := histories[g := history];
      due := step.1 == Retire;
    }

    method Bury(g: GraphId)
      requires Valid()
      modifies `retired
      ensures Valid() && StateOf(g) == old(StateOf(g)).(tombstoned := true)
      ensures forall other :: other != g ==> StateOf(other) == old(StateOf(other))
    {
      retired := retired + {g};
    }

    method Forget(g: GraphId)
      requires Valid()
      modifies `trackers, `histories
      ensures Valid() && StateOf(g) == old(StateOf(g)).(history := [])
      ensures forall other :: other != g ==> StateOf(other) == old(StateOf(other))
    {
      trackers, histories := trackers - {g}, histories - {g};
    }
  }

  function VisitOf(
    graphs: seq<GraphId>, listingOf: GraphId -> Listing, lands: GraphId -> AgentId -> bool, g: GraphId): Visit
  {
    if g in graphs then Visit(listingOf(g), lands(g)) else Gone
  }

  lemma ReplaySnoc(history: seq<Sample>, sample: Sample, margin: nat)
    ensures Replay(history + [sample], margin) == Next(Replay(history, margin).0, margin, sample)
    ensures Replay([], margin).0 == FRESH
  {
    assert (history + [sample])[..|history|] == history;
  }

  lemma NextGraph(graphs: seq<GraphId>, i: nat)
    requires i < |graphs| && Distinct(graphs)
    ensures graphs[i] in graphs && graphs[i] in graphs[i..] && graphs[i] !in graphs[i + 1..]
    ensures forall g :: g != graphs[i] ==> (g in graphs[i..] <==> g in graphs[i + 1..])
    ensures graphs[..i + 1] == graphs[..i] + [graphs[i]]
  {
    assert graphs[i..] == [graphs[i]] + graphs[i + 1..];
  }
}
