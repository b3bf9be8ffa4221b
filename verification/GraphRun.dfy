/**
 A graph of agents under the reaper, as a state machine: agents wake, send, park, spawn and close; signals are
 delivered late; a sweep samples the agents one after another and feeds the detector. The results say when a
 `Retire` verdict is safe.
 */
module GraphRun {
  import opened Wrappers
  import opened Sorting
  import opened Quiescence

  /**
   `delivery` bounds the time a signal is in flight, `wake` the time a parked agent sits on a retire request, and
   `sweep` the time from a sweep's clock reading, which all graphs share, to its last sample of this graph;
   `margin` is the detector's window.
   */
  datatype Config = Config(delivery: nat, wake: nat, sweep: nat, margin: nat)

  datatype Kind = Trigger | HumanOp | MandatePatch | RetireRequest

  datatype Signal = Signal(to: AgentId, kind: Kind, sentAt: nat)

  /** `retiring` is set once a wake has drained a retire request: such an agent never parks again. */
  datatype Agent = Agent(
    live: bool, retiring: bool, snapshot: Snapshot, retireRequested: bool, requestedSince: nat)

  /** A sweep reads the clock, later lists this graph's agents, and then samples them one by one. */
  datatype Sweep = Idle | Started(now: nat) | Sampling(now: nat, todo: seq<AgentId>, got: seq<Observation>)

  datatype State = State(
    clock: nat, agents: map<AgentId, Agent>, inflight: multiset<Signal>, sweep: Sweep, tracker: Tracker)

  datatype Step =
    | Elapse(dt: nat)
    | Send(from: AgentId, to: AgentId, kind: Kind)
    | Deliver(signal: Signal)
    | Wake(agent: AgentId)
    | Park(agent: AgentId)
    | Close(agent: AgentId)
    | Spawn(parent: AgentId, child: AgentId, isNever: bool)
    | BeginSweep
    | List(listing: seq<AgentId>)
    | SampleNext
    | AbandonSweep
    | EndSweep

  const U64_MAX: nat := 0xFFFF_FFFF_FFFF_FFFF

  function Bump(counter: nat): nat {
    if counter < U64_MAX then counter + 1 else counter
  }

  /** The signal handlers: three kinds are queued and counted; a retire request is only remembered. */
  function Receive(a: Agent, kind: Kind, clock: nat): Agent {
    var s := a.snapshot;
    match kind
    case Trigger => a.(snapshot := s.(pendingTriggers := s.pendingTriggers + 1, triggersSeen := Bump(s.triggersSeen)))
    case HumanOp => a.(snapshot := s.(pendingHumanOps := s.pendingHumanOps + 1, humanOpsSeen := Bump(s.humanOpsSeen)))
    case MandatePatch => a.(snapshot := s.(pendingPatches := s.pendingPatches + 1, patchesSeen := Bump(s.patchesSeen)))
    case RetireRequest => if a.retireRequested then a else a.(retireRequested := true, requestedSince := clock)
  }

  predicate Awake(s: State, a: AgentId) {
    a in s.agents && s.agents[a].live && !s.agents[a].snapshot.parked
  }

  predicate Parked(s: State, a: AgentId) {
    a in s.agents && s.agents[a].live && s.agents[a].snapshot.parked
  }

  /** What ends the wait of a parked agent: a queued signal, a retire request, or an armed timer. */
  predicate Wakeable(a: Agent) {
    || a.snapshot.pendingTriggers > 0 || a.snapshot.pendingHumanOps > 0 || a.snapshot.pendingPatches > 0
    || a.retireRequested
    || ArmSelfWake(a.snapshot.isNever, a.snapshot.tick == 0)
  }

  predicate RetirePending(a: Agent) {
    a.live && a.snapshot.parked && a.retireRequested
  }

  /** At time `t` no signal, no retire request and no sweep is overdue, and none begins later than `t`. */
  ghost predicate Timely(cfg: Config, s: State, t: nat) {
    && (forall m :: m in s.inflight ==> m.sentAt <= t <= m.sentAt + cfg.delivery)
    && (forall a :: a in s.agents ==> AgentTimely(cfg, s.agents[a], t))
    && (!s.sweep.Idle? ==> s.sweep.now <= t <= s.sweep.now + cfg.sweep)
  }

  predicate AgentTimely(cfg: Config, a: Agent, t: nat) {
    a.requestedSince <= t && (RetirePending(a) ==> t <= a.requestedSince + cfg.wake)
  }

  ghost predicate Enabled(cfg: Config, s: State, step: Step, spawnWhileSampling: bool) {
    match step
    case Elapse(dt) => Timely(cfg, s, s.clock + dt)
    case Send(from, _, _) => Awake(s, from)
    case Deliver(m) => m in s.inflight
    case Wake(a) => Parked(s, a) && Wakeable(s.agents[a])
    case Park(a) => Awake(s, a) && !s.agents[a].retiring
    case Close(a) => a in s.agents && s.agents[a].live
    case Spawn(p, c, _) => Awake(s, p) && c !in s.agents && (!s.sweep.Sampling? || spawnWhileSampling)
    case BeginSweep => s.sweep.Idle?
    case List(listing) => s.sweep.Started? && Distinct(listing) && forall a :: a in listing <==> a in s.agents
    case SampleNext => s.sweep.Sampling? && s.sweep.todo != [] && s.sweep.todo[0] in s.agents
    case AbandonSweep => !s.sweep.Idle?
    case EndSweep => s.sweep.Sampling? && s.sweep.todo == []
  }

  function Put(s: State, a: AgentId, agent: Agent): State {
    s.(agents := s.agents[a := agent])
  }

  /** A wake drains the queues; a retire request drained with them marks the agent. */
  function Awoken(a: Agent): Agent {
    a.(retiring := a.retireRequested,
       retireRequested := false,
       snapshot := a.snapshot.(parked := false, pendingTriggers := 0, pendingHumanOps := 0, pendingPatches := 0))
  }

  function ParkedAt(a: Agent, clock: nat): Agent {
    a.(requestedSince := clock, snapshot := a.snapshot.(parked := true, tick := a.snapshot.tick + 1))
  }

  ghost function Apply(cfg: Config, s: State, step: Step): State
    requires Enabled(cfg, s, step, true)
  {
    match step
    case Elapse(dt) => s.(clock := s.clock + dt)
    case Send(_, to, kind) => s.(inflight := s.inflight + multiset{Signal(to, kind, s.clock)})
    case Deliver(m) =>
      var rest := s.(inflight := s.inflight - multiset{m});
      if m.to in s.agents && s.agents[m.to].live then Put(rest, m.to, Receive(s.agents[m.to], m.kind, s.clock))
      else rest
    case Wake(a) => Put(s, a, Awoken(s.agents[a]))
    case Park(a) => Put(s, a, ParkedAt(s.agents[a], s.clock))
    case Close(a) => Put(s, a, s.agents[a].(live := false))
    case Spawn(_, c, isNever) =>
      Put(s, c, Agent(true, false, Snapshot(isNever, true, 0, 0, 0, 0, 0, 0, 0), false, s.clock))
    case BeginSweep => s.(sweep := Started(s.clock))
    case List(listing) => s.(sweep := Sampling(s.sweep.now, listing, []))
    case SampleNext =>
      var a := s.sweep.todo[0];
      var seen := if s.agents[a].live then [Observation(a, s.agents[a].snapshot)] else [];
      s.(sweep := s.sweep.(todo := s.sweep.todo[1..], got := s.sweep.got + seen))
    case AbandonSweep => s.(sweep := Idle, tracker := FRESH)
    case EndSweep => s.(sweep := Idle, tracker := SweepResult(cfg, s).0)
  }

  /** The end of a sweep: the detector takes the sample, if any agent is live. */
  function SweepResult(cfg: Config, s: State): (r: (Tracker, Verdict))
    requires s.sweep.Sampling?
  {
    Visited(s.tracker, cfg.margin, s.sweep.now, if s.sweep.got == [] then None else Some(s.sweep.got))
  }

  ghost predicate Runs(cfg: Config, s: State, steps: seq<Step>, spawnWhileSampling: bool)
    decreases |steps|
  {
    steps != [] ==>
      && Enabled(cfg, s, steps[0], spawnWhileSampling)
      && Runs(cfg, Apply(cfg, s, steps[0]), steps[1..], spawnWhileSampling)
  }

  ghost function After(cfg: Config, s: State, steps: seq<Step>): State
    requires Runs(cfg, s, steps, true)
    decreases |steps|
  {
    if steps == [] then s else After(cfg, Apply(cfg, s, steps[0]), steps[1..])
  }

  /** Any agents and any signals still on their way, a detector that has seen nothing. */
  ghost predicate Init(cfg: Config, s: State) {
    && s.sweep == Idle && s.tracker == FRESH
    && Timely(cfg, s, s.clock)
    && (forall a :: a in s.agents && s.agents[a].retiring ==> !s.agents[a].snapshot.parked)
  }

  ghost predicate Reachable(cfg: Config, s: State, spawnWhileSampling: bool) {
    exists s0, steps ::
      && Init(cfg, s0) && Runs(cfg, s0, steps, spawnWhileSampling)
      && Runs(cfg, s0, steps, true) && After(cfg, s0, steps) == s
  }

  /** No signal in flight, and every live agent parked with nothing that could end its wait. */
  ghost predicate Dead(s: State) {
    && s.inflight == multiset{}
    && (forall a :: a in s.agents && s.agents[a].live ==> s.agents[a].snapshot.parked && !Wakeable(s.agents[a]))
  }

  ghost predicate RetiresNow(cfg: Config, s: State) {
    s.sweep.Sampling? && s.sweep.todo == [] && SweepResult(cfg, s).1 == Retire
  }

  predicate Unsaturated(e: Entry) {
    e.triggers < U64_MAX && e.humanOps < U64_MAX && e.patches < U64_MAX
  }

  ghost predicate NoCounterSaturated(agents: seq<Observation>) {
    forall o :: o in agents ==> Unsaturated(EntryOf(o))
  }

  /** Whenever the detector retires a graph whose counters are below their ceiling, the graph is dead. */
  ghost predicate Sound(cfg: Config, spawnWhileSampling: bool) {
    forall s :: Reachable(cfg, s, spawnWhileSampling) && RetiresNow(cfg, s) && NoCounterSaturated(s.sweep.got)
      ==> Dead(Apply(cfg, s, EndSweep))
  }

  // --- The invariant --------------------------------------------------------------------------------------

  function EntryAt(s: State, a: AgentId): Entry
    requires a in s.agents
  {
    EntryOf(Observation(a, s.agents[a].snapshot))
  }

  /** Nothing has happened to the agent since it was sampled as `e`. */
  ghost predicate Untouched(s: State, e: Entry) {
    e.agent in s.agents && s.agents[e.agent].live && !s.agents[e.agent].retiring && EntryAt(s, e.agent) == e
  }

  /** A quiescent sample `e` of the past: counters only grow, and while nothing happened the agent is quiescent. */
  ghost predicate Sampled(s: State, e: Entry) {
    && e.agent in s.agents
    && CountersLe(e, EntryAt(s, e.agent))
    && (Unsaturated(e) && Untouched(s, e) ==> AgentQuiescent(s.agents[e.agent].snapshot))
  }

  ghost predicate Calm(s: State, d: seq<Entry>) {
    forall e :: e in d ==> Unsaturated(e) && Untouched(s, e)
  }

  ghost predicate Listed(d: seq<Entry>, a: AgentId) {
    exists e :: e in d && e.agent == a
  }

  /** While calm, whatever is still under way began before the end of the sweep that opened the window. */
  ghost predicate OldNewsOnly(cfg: Config, s: State, since: nat) {
    && (forall m :: m in s.inflight ==> m.sentAt <= since + cfg.sweep)
    && (forall a :: a in s.agents && RetirePending(s.agents[a]) ==>
          s.agents[a].requestedSince <= since + cfg.sweep + cfg.delivery)
  }

  ghost predicate Window(cfg: Config, s: State, since: nat, d: seq<Entry>) {
    && since <= s.clock
    && (forall e :: e in d ==> Sampled(s, e))
    && (Calm(s, d) ==>
          && (forall a :: a in s.agents && s.agents[a].live ==> Listed(d, a))
          && OldNewsOnly(cfg, s, since))
  }

  ghost predicate ClockInv(cfg: Config, s: State) {
    && Timely(cfg, s, s.clock)
    && (forall a :: a in s.agents && s.agents[a].retiring ==> !s.agents[a].snapshot.parked)
  }

  ghost predicate SweepInv(cfg: Config, s: State) {
    AllCovered(s) && (s.sweep.Sampling? ==>
      forall o :: o in s.sweep.got && AgentQuiescent(o.snapshot) ==> Sampled(s, EntryOf(o)))
  }

  /** Entry `e` was touched before this sweep, and the sweep has not mistaken it for untouched. */
  ghost predicate Noticed(s: State, e: Entry) {
    && !s.sweep.Idle? && e.agent in s.agents && !Untouched(s, e)
    && (s.sweep.Sampling? ==> forall o :: o in s.sweep.got && EntryOf(o) == e ==> !AgentQuiescent(o.snapshot))
  }

  ghost predicate SecondLook(cfg: Config, s: State, since: nat, d: seq<Entry>) {
    !s.sweep.Idle? && SatSub(s.sweep.now, since) >= cfg.margin && (forall e :: e in d ==> Unsaturated(e)) ==>
      Dead(s) || exists e :: e in d && Noticed(s, e)
  }

  ghost predicate TrackerInv(cfg: Config, s: State) {
    match s.tracker
    case Tracker(None, None) => true
    case Tracker(Some(since), Some(d)) => Window(cfg, s, since, d) && SecondLook(cfg, s, since, d)
    case _ => false
  }

  ghost predicate Inv(cfg: Config, s: State) {
    ClockInv(cfg, s) && SweepInv(cfg, s) && TrackerInv(cfg, s)
  }

  /** `margin` exceeds a delivery, a wake and a sweep. */
  predicate MarginCovers(cfg: Config) {
    cfg.margin > cfg.delivery + cfg.wake + cfg.sweep
  }

  /** What a step makes of one agent. */
  function AgentNext(s: State, step: Step, a: AgentId, x: Agent): Agent {
    match step
    case Deliver(m) => if m.to == a && x.live then Receive(x, m.kind, s.clock) else x
    case Wake(b) => if b == a then Awoken(x) else x
    case Park(b) => if b == a then ParkedAt(x, s.clock) else x
    case Close(b) => if b == a then x.(live := false) else x
    case _ => x
  }

  lemma AgentFrame(cfg: Config, s: State, step: Step, a: AgentId)
    requires Enabled(cfg, s, step, true) && a in s.agents
    ensures a in Apply(cfg, s, step).agents && Apply(cfg, s, step).agents[a] == AgentNext(s, step, a, s.agents[a])
  {
  }

  lemma ClockInvStep(cfg: Config, s: State, step: Step)
    requires ClockInv(cfg, s) && Enabled(cfg, s, step, false)
    ensures ClockInv(cfg, Apply(cfg, s, step))
  {
    var s' := Apply(cfg, s, step);
    forall m | m in s'.inflight ensures m.sentAt <= s'.clock <= m.sentAt + cfg.delivery {
      assert m in s.inflight || (step.Send? && m.sentAt == s.clock);
    }
    forall a | a in s'.agents
      ensures AgentTimely(cfg, s'.agents[a], s'.clock) && (s'.agents[a].retiring ==> !s'.agents[a].snapshot.parked)
    {
      AgentClockStep(cfg, s, step, a);
    }
  }

  lemma AgentClockStep(cfg: Config, s: State, step: Step, a: AgentId)
    requires ClockInv(cfg, s) && Enabled(cfg, s, step, false) && a in Apply(cfg, s, step).agents
    ensures var s' := Apply(cfg, s, step);
      AgentTimely(cfg, s'.agents[a], s'.clock) && (s'.agents[a].retiring ==> !s'.agents[a].snapshot.parked)
  {
    if a in s.agents {
      AgentFrame(cfg, s, step, a);
      NextIsTimely(cfg, s, step, a, s.agents[a]);
    }
  }

  lemma NextIsTimely(cfg: Config, s: State, step: Step, a: AgentId, x: Agent)
    requires AgentTimely(cfg, x, s.clock) && (x.retiring ==> !x.snapshot.parked)
    requires step.Elapse? ==> AgentTimely(cfg, x, s.clock + step.dt)
    requires step == Park(a) ==> !x.retiring
    ensures var y := AgentNext(s, step, a, x);
      && (y.retiring ==> !y.snapshot.parked)
      && AgentTimely(cfg, y, if step.Elapse? then s.clock + step.dt else s.clock)
  {
  }

  predicate CountersLe(x: Entry, y: Entry) {
    x.agent == y.agent && x.triggers <= y.triggers && x.humanOps <= y.humanOps && x.patches <= y.patches
  }

  /**
   What one step can do to an agent: counters only grow, a closed or retiring one stays so, and a quiescent one
   keeps its snapshot unless a counter moves or it starts to retire.
   */
  lemma AgentStep(cfg: Config, s: State, step: Step, a: AgentId)
    requires ClockInv(cfg, s) && Enabled(cfg, s, step, false) && a in s.agents
    ensures a in Apply(cfg, s, step).agents
    ensures CountersLe(EntryAt(s, a), EntryAt(Apply(cfg, s, step), a))
    ensures var x, y := s.agents[a], Apply(cfg, s, step).agents[a];
      y.live && !y.retiring ==>
        && x.live && !x.retiring
        && (AgentQuiescent(x.snapshot) && Unsaturated(EntryAt(s, a)) && EntryAt(Apply(cfg, s, step), a) == EntryAt(s, a)
            ==> y.snapshot == x.snapshot)
  {
    AgentFrame(cfg, s, step, a);
    NextKeepsQuiet(s, step, a, s.agents[a]);
  }

  function CountersOf(a: AgentId, x: Agent): Entry {
    EntryOf(Observation(a, x.snapshot))
  }

  lemma NextKeepsQuiet(s: State, step: Step, a: AgentId, x: Agent)
    requires step == Park(a) ==> !x.retiring && !x.snapshot.parked
    requires step == Wake(a) ==> x.live && x.snapshot.parked && Wakeable(x)
    requires x.retiring ==> !x.snapshot.parked
    ensures var y := AgentNext(s, step, a, x);
      && CountersLe(CountersOf(a, x), CountersOf(a, y))
      && (y.live && !y.retiring ==>
            && x.live && !x.retiring
            && (AgentQuiescent(x.snapshot) && Unsaturated(CountersOf(a, x)) && CountersOf(a, y) == CountersOf(a, x)
                ==> y.snapshot == x.snapshot))
  {
  }

  /** A touched agent stays touched, so an untouched one was untouched before. */
  lemma UntouchedBackwards(cfg: Config, s: State, step: Step, e: Entry)
    requires ClockInv(cfg, s) && Enabled(cfg, s, step, false) && Sampled(s, e) && Unsaturated(e)
    requires Untouched(Apply(cfg, s, step), e)
    ensures Untouched(s, e) && Apply(cfg, s, step).agents[e.agent].snapshot == s.agents[e.agent].snapshot
  {
    AgentStep(cfg, s, step, e.agent);
  }

  lemma SampledStep(cfg: Config, s: State, step: Step, e: Entry)
    requires ClockInv(cfg, s) && Enabled(cfg, s, step, false) && Sampled(s, e)
    ensures Sampled(Apply(cfg, s, step), e)
  {
    AgentStep(cfg, s, step, e.agent);
    if Unsaturated(e) && Untouched(Apply(cfg, s, step), e) {
      UntouchedBackwards(cfg, s, step, e);
    }
  }

  /** In a calm window nobody is awake, so only old signals and old retire requests are under way. */
  lemma WindowStep(cfg: Config, s: State, step: Step, since: nat, d: seq<Entry>)
    requires ClockInv(cfg, s) && Enabled(cfg, s, step, false) && Window(cfg, s, since, d)
    ensures Window(cfg, Apply(cfg, s, step), since, d)
  {
    var s' := Apply(cfg, s, step);
    forall e | e in d ensures Sampled(s', e) {
      SampledStep(cfg, s, step, e);
    }
    if Calm(s', d) {
      forall e | e in d ensures Unsaturated(e) && Untouched(s, e) {
        UntouchedBackwards(cfg, s, step, e);
      }
      assert Calm(s, d);
      forall a | a in s.agents && s.agents[a].live
        ensures AgentQuiescent(s.agents[a].snapshot) && !s.agents[a].retiring && Untouched(s', EntryAt(s, a))
      {
        assert Listed(d, a);
      }
      CalmStep(cfg, s, step, since);
      assert forall a :: a in s'.agents && s'.agents[a].live ==> a in s.agents && s.agents[a].live;
    }
  }

  lemma CalmStep(cfg: Config, s: State, step: Step, since: nat)
    requires ClockInv(cfg, s) && Enabled(cfg, s, step, false) && OldNewsOnly(cfg, s, since)
    requires forall a :: a in s.agents && s.agents[a].live ==>
      AgentQuiescent(s.agents[a].snapshot) && Untouched(Apply(cfg, s, step), EntryAt(s, a))
    ensures OldNewsOnly(cfg, Apply(cfg, s, step), since)
  {
  }

  lemma ObservedStep(cfg: Config, s: State, step: Step, o: Observation)
    requires ClockInv(cfg, s) && SweepInv(cfg, s) && Enabled(cfg, s, step, false)
    requires Apply(cfg, s, step).sweep.Sampling? && o in Apply(cfg, s, step).sweep.got && AgentQuiescent(o.snapshot)
    ensures Sampled(Apply(cfg, s, step), EntryOf(o))
  {
    if s.sweep.Sampling? && o in s.sweep.got {
      SampledStep(cfg, s, step, EntryOf(o));
    }
  }

  /** Everyone alive is still to be sampled or has been. */
  ghost predicate AllCovered(s: State) {
    s.sweep.Sampling? ==>
      && (forall a :: a in s.sweep.todo ==> a in s.agents)
      && (forall a :: a in s.agents && s.agents[a].live ==>
            a in s.sweep.todo || exists o :: o in s.sweep.got && o.agent == a)
  }

  lemma CoveredStep(cfg: Config, s: State, step: Step)
    requires AllCovered(s) && Enabled(cfg, s, step, false)
    ensures AllCovered(Apply(cfg, s, step))
  {
    var s' := Apply(cfg, s, step);
    if s'.sweep.Sampling? {
      if step.SampleNext? {
        var a := s.sweep.todo[0];
        assert s.sweep.todo == [a] + s.sweep.todo[1..];
        if s.agents[a].live {
          assert Observation(a, s.agents[a].snapshot) in s'.sweep.got;
        }
      } else if !step.List? {
        assert s'.sweep == s.sweep;
      }
    }
  }

  lemma SweepInvStep(cfg: Config, s: State, step: Step)
    requires ClockInv(cfg, s) && SweepInv(cfg, s) && Enabled(cfg, s, step, false)
    ensures SweepInv(cfg, Apply(cfg, s, step))
  {
    var s' := Apply(cfg, s, step);
    CoveredStep(cfg, s, step);
    if s'.sweep.Sampling? {
      forall o | o in s'.sweep.got && AgentQuiescent(o.snapshot) ensures Sampled(s', EntryOf(o)) {
        ObservedStep(cfg, s, step, o);
      }
    }
  }

  lemma DeadStep(cfg: Config, s: State, step: Step, spawnWhileSampling: bool)
    requires Dead(s) && Enabled(cfg, s, step, spawnWhileSampling)
    ensures Dead(Apply(cfg, s, step))
    ensures !step.Wake? && !step.Send? && !step.Deliver? && !step.Park? && !step.Spawn?
  {
  }

  lemma NoticedStep(cfg: Config, s: State, step: Step, e: Entry)
    requires ClockInv(cfg, s) && Enabled(cfg, s, step, false) && Sampled(s, e) && Unsaturated(e) && Noticed(s, e)
    requires !Apply(cfg, s, step).sweep.Idle?
    ensures Noticed(Apply(cfg, s, step), e)
  {
    var s' := Apply(cfg, s, step);
    if Untouched(s', e) {
      UntouchedBackwards(cfg, s, step, e);
    }
  }

  lemma SecondLookStep(cfg: Config, s: State, step: Step, since: nat, d: seq<Entry>)
    requires MarginCovers(cfg)
    requires ClockInv(cfg, s) && Enabled(cfg, s, step, false)
    requires Window(cfg, s, since, d) && SecondLook(cfg, s, since, d)
    ensures SecondLook(cfg, Apply(cfg, s, step), since, d)
  {
    var s' := Apply(cfg, s, step);
    if !s'.sweep.Idle? && SatSub(s'.sweep.now, since) >= cfg.margin && (forall e :: e in d ==> Unsaturated(e)) {
      if step.BeginSweep? {
        FirstGlance(cfg, s, step, since, d);
      } else if Dead(s) {
        DeadStep(cfg, s, step, false);
      } else {
        var e :| e in d && Noticed(s, e);
        NoticedStep(cfg, s, step, e);
      }
    }
  }

  /** A sweep that begins after the margin finds the graph dead, or some sampled agent touched. */
  lemma FirstGlance(cfg: Config, s: State, step: Step, since: nat, d: seq<Entry>)
    requires MarginCovers(cfg)
    requires ClockInv(cfg, s) && step.BeginSweep? && Enabled(cfg, s, step, false) && Window(cfg, s, since, d)
    requires SatSub(s.clock, since) >= cfg.margin && forall e :: e in d ==> Unsaturated(e)
    ensures Dead(s) || exists e :: e in d && Noticed(Apply(cfg, s, step), e)
  {
    if Calm(s, d) {
      forall m ensures m !in s.inflight {
        assert m in s.inflight ==> s.clock <= m.sentAt + cfg.delivery;
      }
      forall a | a in s.agents && s.agents[a].live
        ensures s.agents[a].snapshot.parked && !Wakeable(s.agents[a])
      {
        assert Listed(d, a);
        assert AgentQuiescent(s.agents[a].snapshot);
      }
    } else {
      var e :| e in d && !(Unsaturated(e) && Untouched(s, e));
      assert Sampled(s, e);
      assert Noticed(Apply(cfg, s, step), e);
    }
  }

  /** A retiring sweep cannot have noticed anything, so the graph is dead. */
  lemma RetireMeansDead(cfg: Config, s: State)
    requires Inv(cfg, s) && RetiresNow(cfg, s) && NoCounterSaturated(s.sweep.got)
    ensures Dead(s)
  {
    var d := s.tracker.lastDigest.value;
    assert d == Digest(s.sweep.got);
    SortMembers(Entries(s.sweep.got), EntryLe);
    EntriesMembers(s.sweep.got);
    forall e | e in d ensures !Noticed(s, e) {
      var o :| o in s.sweep.got && EntryOf(o) == e;
    }
  }

  /** A sweep whose sample differs from the remembered one opens a new window. */
  lemma NewWindow(cfg: Config, s: State)
    requires ClockInv(cfg, s) && SweepInv(cfg, s) && s.sweep.Sampling? && s.sweep.todo == []
    requires AllQuiescent(s.sweep.got)
    ensures Window(cfg, s.(sweep := Idle, tracker := Tracker(Some(s.sweep.now), Some(Digest(s.sweep.got)))),
      s.sweep.now, Digest(s.sweep.got))
  {
    var d := Digest(s.sweep.got);
    var s' := s.(sweep := Idle, tracker := Tracker(Some(s.sweep.now), Some(d)));
    SortMembers(Entries(s.sweep.got), EntryLe);
    EntriesMembers(s.sweep.got);
    forall e | e in d ensures Sampled(s', e) {
      var o :| o in s.sweep.got && EntryOf(o) == e;
      assert Sampled(s, e);
    }
    forall a | a in s'.agents && s'.agents[a].live ensures Listed(d, a) {
      var o :| o in s.sweep.got && o.agent == a;
      assert EntryOf(o) in d;
    }
  }

  lemma EndSweepInv(cfg: Config, s: State)
    requires MarginCovers(cfg) && Inv(cfg, s) && Enabled(cfg, s, EndSweep, false)
    ensures Inv(cfg, Apply(cfg, s, EndSweep))
  {
    ClockInvStep(cfg, s, EndSweep);
    var s' := Apply(cfg, s, EndSweep);
    if s.sweep.got != [] && AllQuiescent(s.sweep.got) && SweepResult(cfg, s).1 != Retire {
      if s.tracker.lastDigest == Some(Digest(s.sweep.got)) {
        WindowStep(cfg, s, EndSweep, s.tracker.stableSince.value, s.tracker.lastDigest.value);
      } else {
        NewWindow(cfg, s);
      }
    }
  }

  lemma InvStep(cfg: Config, s: State, step: Step)
    requires MarginCovers(cfg) && Inv(cfg, s) && Enabled(cfg, s, step, false)
    ensures Inv(cfg, Apply(cfg, s, step))
  {
    if step.EndSweep? {
      EndSweepInv(cfg, s);
    } else {
      ClockInvStep(cfg, s, step);
      SweepInvStep(cfg, s, step);
      if s.tracker.stableSince.Some? && !step.AbandonSweep? {
        WindowStep(cfg, s, step, s.tracker.stableSince.value, s.tracker.lastDigest.value);
        SecondLookStep(cfg, s, step, s.tracker.stableSince.value, s.tracker.lastDigest.value);
      }
    }
  }

  lemma {:induction false} InvAlongRun(cfg: Config, s: State, steps: seq<Step>)
    requires MarginCovers(cfg) && Inv(cfg, s) && Runs(cfg, s, steps, false) && Runs(cfg, s, steps, true)
    ensures Inv(cfg, After(cfg, s, steps))
    decreases |steps|
  {
    if steps != [] {
      InvStep(cfg, s, steps[0]);
      InvAlongRun(cfg, Apply(cfg, s, steps[0]), steps[1..]);
    }
  }

  /** Soundness over every run: a graph the detector retires can never do anything again. */
  lemma MarginSuffices(cfg: Config)
    requires MarginCovers(cfg)
    ensures Sound(cfg, false)
  {
    forall s | Reachable(cfg, s, false) && RetiresNow(cfg, s) && NoCounterSaturated(s.sweep.got)
      ensures Dead(Apply(cfg, s, EndSweep))
    {
      var s0, steps :|
        Init(cfg, s0) && Runs(cfg, s0, steps, false) && Runs(cfg, s0, steps, true) && After(cfg, s0, steps) == s;
      InvAlongRun(cfg, s0, steps);
      RetireMeansDead(cfg, s);
      DeadStep(cfg, s, EndSweep, false);
    }
  }

  /** Once dead, a graph stays dead, and no later step wakes, sends, delivers or spawns. */
  lemma {:induction false} DeadForever(cfg: Config, s: State, steps: seq<Step>, spawnWhileSampling: bool)
    requires Dead(s) && Runs(cfg, s, steps, spawnWhileSampling) && Runs(cfg, s, steps, true)
    ensures Dead(After(cfg, s, steps))
    ensures forall k :: 0 <= k < |steps| ==>
      !steps[k].Wake? && !steps[k].Send? && !steps[k].Deliver? && !steps[k].Spawn?
    decreases |steps|
  {
    if steps != [] {
      DeadStep(cfg, s, steps[0], spawnWhileSampling);
      DeadForever(cfg, Apply(cfg, s, steps[0]), steps[1..], spawnWhileSampling);
      assert forall k :: 1 <= k < |steps| ==> steps[k] == steps[1..][k - 1];
    }
  }

  // --- A dead graph is retired ----------------------------------------------------------------------------

  /** The detector takes an agent for quiescent exactly if nothing can end its wait, a retire request aside. */
  lemma QuiescentIffUnwakeable(x: Agent)
    ensures AgentQuiescent(x.snapshot) && !x.retireRequested <==> x.snapshot.parked && !Wakeable(x)
  {
    QuiescentIsAsleep(x.snapshot);
  }

  /** What sampling these agents in this order shows: the live ones. */
  ghost function SeenOf(agents: map<AgentId, Agent>, listing: seq<AgentId>): seq<Observation>
    requires forall a :: a in listing ==> a in agents
  {
    if listing == [] then []
    else
      (if agents[listing[0]].live then [Observation(listing[0], agents[listing[0]].snapshot)] else [])
      + SeenOf(agents, listing[1..])
  }

  ghost predicate Covers(agents: map<AgentId, Agent>, listing: seq<AgentId>) {
    Distinct(listing) && forall a :: a in listing <==> a in agents
  }

  lemma {:induction false} SeenFacts(agents: map<AgentId, Agent>, listing: seq<AgentId>)
    requires forall a :: a in listing ==> a in agents
    ensures forall o :: o in SeenOf(agents, listing) <==>
      o.agent in listing && agents[o.agent].live && o.snapshot == agents[o.agent].snapshot
    ensures Distinct(listing) ==> Distinct(SeenOf(agents, listing))
  {
    if listing != [] {
      var rest := listing[1..];
      SeenFacts(agents, rest);
      assert forall a :: a in listing <==> a == listing[0] || a in rest;
      if Distinct(listing) {
        assert listing[0] !in rest;
      }
    }
  }

  /** Whatever order the agents are listed in, a sweep of agents at rest shows one digest. */
  lemma SweepsAgree(agents: map<AgentId, Agent>, one: seq<AgentId>, other: seq<AgentId>)
    requires Covers(agents, one) && Covers(agents, other)
    ensures Digest(SeenOf(agents, one)) == Digest(SeenOf(agents, other))
  {
    var a, b := SeenOf(agents, one), SeenOf(agents, other);
    SeenFacts(agents, one);
    SeenFacts(agents, other);
    DistinctByCount(a);
    DistinctByCount(b);
    forall o ensures multiset(a)[o] == multiset(b)[o] {
      assert o in a <==> o in multiset(a);
      assert o in b <==> o in multiset(b);
    }
    assert multiset(a) == multiset(b);
    PermutationKeepsImages(a, b, ActivityOf);
    DigestIsOrderFree(a, b);
  }

  /** The sweep under way samples one listing of all agents, and has come to `todo`. */
  ghost predicate SweepsAll(s: State, listing: seq<AgentId>) {
    && s.sweep.Sampling? && Covers(s.agents, listing) && (forall a :: a in s.sweep.todo ==> a in s.agents)
    && SeenOf(s.agents, listing) == s.sweep.got + SeenOf(s.agents, s.sweep.todo)
  }

  ghost predicate SomeoneLives(s: State) {
    exists a :: a in s.agents && s.agents[a].live
  }

  /** A dead graph with a live agent under a sweeper whose memory is not from the future. */
  ghost predicate AtRest(s: State) {
    && Dead(s) && SomeoneLives(s)
    && (s.sweep.Sampling? ==> exists listing :: SweepsAll(s, listing))
    && (!s.sweep.Idle? ==> s.sweep.now <= s.clock)
    && (s.tracker.stableSince.Some? ==>
          s.tracker.stableSince.value <= if s.sweep.Idle? then s.clock else s.sweep.now)
  }

  /** No agent closes and no sweep is given up. */
  predicate Undisturbed(step: Step) {
    !step.Close? && !step.AbandonSweep?
  }

  lemma RestStep(cfg: Config, s: State, step: Step)
    requires AtRest(s) && Enabled(cfg, s, step, true) && Undisturbed(step)
    ensures AtRest(Apply(cfg, s, step)) && Apply(cfg, s, step).agents == s.agents
    ensures !step.EndSweep? ==> Apply(cfg, s, step).tracker == s.tracker
  {
    var s' := Apply(cfg, s, step);
    DeadStep(cfg, s, step, true);
    if step.List? {
      assert SweepsAll(s', step.listing);
    } else if step.SampleNext? {
      var listing :| SweepsAll(s, listing);
      SampleKeepsSweep(cfg, s, listing);
    } else if s'.sweep.Sampling? {
      var listing :| SweepsAll(s, listing);
      assert SweepsAll(s', listing);
    }
  }

  lemma SampleKeepsSweep(cfg: Config, s: State, listing: seq<AgentId>)
    requires SweepsAll(s, listing) && Enabled(cfg, s, SampleNext, true)
    ensures SweepsAll(Apply(cfg, s, SampleNext), listing)
  {
    var a := s.sweep.todo[0];
    assert s.sweep.todo == [a] + s.sweep.todo[1..];
    var seen := if s.agents[a].live then [Observation(a, s.agents[a].snapshot)] else [];
    ConcatAssoc(s.sweep.got, seen, SeenOf(s.agents, s.sweep.todo[1..]));
  }

  ghost predicate SweepDone(s: State) {
    s.sweep.Sampling? && s.sweep.todo == []
  }

  /** A whole sweep of a graph at rest is quiescent, and shows the digest of any listing. */
  lemma SweepAtRest(s: State, listing: seq<AgentId>)
    requires AtRest(s) && SweepDone(s) && Covers(s.agents, listing)
    ensures AllQuiescent(s.sweep.got) && Digest(s.sweep.got) == Digest(SeenOf(s.agents, listing))
  {
    var swept :| SweepsAll(s, swept);
    assert s.sweep.got + [] == s.sweep.got;
    SweepsAgree(s.agents, swept, listing);
    SeenFacts(s.agents, swept);
    forall o | o in s.sweep.got ensures AgentQuiescent(o.snapshot) {
      QuiescentIffUnwakeable(s.agents[o.agent]);
    }
    var a :| a in s.agents && s.agents[a].live;
    assert Observation(a, s.agents[a].snapshot) in s.sweep.got;
  }

  /** The detector remembers the sleeping graph, from `since` or before. */
  ghost predicate Remembers(s: State, listing: seq<AgentId>, since: nat) {
    Covers(s.agents, listing) && Holds(s.tracker, Digest(SeenOf(s.agents, listing)), since)
  }

  predicate Holds(t: Tracker, d: seq<Entry>, since: nat) {
    t.stableSince.Some? && t.stableSince.value <= since && t.lastDigest == Some(d)
  }

  lemma QuiescentVisit(t: Tracker, margin: nat, now: nat, got: seq<Observation>, d: seq<Entry>)
    requires AllQuiescent(got) && Digest(got) == d && (t.stableSince.Some? ==> t.stableSince.value <= now)
    ensures var (t', verdict) := Visited(t, margin, now, Some(got)); verdict == Retire || Holds(t', d, now)
  {
  }

  lemma RepeatedVisit(t: Tracker, margin: nat, now: nat, got: seq<Observation>, d: seq<Entry>, since: nat)
    requires AllQuiescent(got) && Digest(got) == d && Holds(t, d, since)
    ensures var (t', verdict) := Visited(t, margin, now, Some(got));
      (verdict == Retire || t' == t) && (now >= since + margin ==> verdict == Retire)
  {
  }

  lemma QuiescentSweepEnds(cfg: Config, s: State, d: seq<Entry>)
    requires SweepDone(s) && AllQuiescent(s.sweep.got) && Digest(s.sweep.got) == d && !RetiresNow(cfg, s)
    requires s.tracker.stableSince.Some? ==> s.tracker.stableSince.value <= s.sweep.now
    ensures Holds(Apply(cfg, s, EndSweep).tracker, d, s.sweep.now)
  {
    QuiescentVisit(s.tracker, cfg.margin, s.sweep.now, s.sweep.got, d);
  }

  lemma RepeatedSweepEnds(cfg: Config, s: State, d: seq<Entry>, since: nat)
    requires SweepDone(s) && AllQuiescent(s.sweep.got) && Digest(s.sweep.got) == d && Holds(s.tracker, d, since)
    ensures RetiresNow(cfg, s) || Apply(cfg, s, EndSweep).tracker == s.tracker
    ensures s.sweep.now >= since + cfg.margin ==> RetiresNow(cfg, s)
  {
    RepeatedVisit(s.tracker, cfg.margin, s.sweep.now, s.sweep.got, d, since);
  }

  lemma FirstSweepIsRemembered(cfg: Config, s: State, listing: seq<AgentId>)
    requires AtRest(s) && SweepDone(s) && !RetiresNow(cfg, s) && Covers(s.agents, listing)
    ensures Remembers(Apply(cfg, s, EndSweep), listing, s.sweep.now)
  {
    var d := Digest(SeenOf(s.agents, listing));
    SweepAtRest(s, listing);
    QuiescentSweepEnds(cfg, s, d);
    assert Apply(cfg, s, EndSweep).agents == s.agents;
  }

  lemma LaterSweepDecides(cfg: Config, s: State, listing: seq<AgentId>, since: nat)
    requires AtRest(s) && SweepDone(s) && Remembers(s, listing, since)
    ensures RetiresNow(cfg, s) || Apply(cfg, s, EndSweep).tracker == s.tracker
    ensures s.sweep.now >= since + cfg.margin ==> RetiresNow(cfg, s)
  {
    var d := Digest(SeenOf(s.agents, listing));
    SweepAtRest(s, listing);
    RepeatedSweepEnds(cfg, s, d, since);
  }

  /** No step of the run is a verdict of `Retire`, close or abandoned sweep. */
  ghost predicate Uneventful(cfg: Config, s: State, steps: seq<Step>)
    requires Runs(cfg, s, steps, true)
    decreases |steps|
  {
    steps != [] ==>
      && Undisturbed(steps[0]) && (steps[0].EndSweep? ==> !RetiresNow(cfg, s))
      && Uneventful(cfg, Apply(cfg, s, steps[0]), steps[1..])
  }

  lemma {:induction false} RestAlongRun(cfg: Config, s: State, steps: seq<Step>)
    requires AtRest(s) && Runs(cfg, s, steps, true) && Uneventful(cfg, s, steps)
    ensures AtRest(After(cfg, s, steps)) && After(cfg, s, steps).agents == s.agents
    decreases |steps|
  {
    if steps != [] {
      RestStep(cfg, s, steps[0]);
      RestAlongRun(cfg, Apply(cfg, s, steps[0]), steps[1..]);
    }
  }

  lemma {:induction false} RemembersAlongRun(cfg: Config, s: State, steps: seq<Step>, listing: seq<AgentId>, since: nat)
    requires AtRest(s) && Remembers(s, listing, since) && Runs(cfg, s, steps, true) && Uneventful(cfg, s, steps)
    ensures Remembers(After(cfg, s, steps), listing, since)
    decreases |steps|
  {
    if steps != [] {
      var s' := Apply(cfg, s, steps[0]);
      RestStep(cfg, s, steps[0]);
      if steps[0].EndSweep? {
        LaterSweepDecides(cfg, s, listing, since);
      }
      assert Remembers(s', listing, since);
      RemembersAlongRun(cfg, s', steps[1..], listing, since);
    }
  }

  /**
   Every dead graph is retired: from a dead graph with a live agent, once two whole sweeps have read the clock the
   margin apart, with no agent closing and no sweep given up in between, the second one's verdict is `Retire`,
   unless there was one before.
   */
  lemma DeadGraphIsRetired(cfg: Config, s: State, first: seq<Step>, second: seq<Step>)
    requires Dead(s) && SomeoneLives(s) && s.sweep.Idle?
    requires s.tracker.stableSince.Some? ==> s.tracker.stableSince.value <= s.clock
    requires Runs(cfg, s, first, true) && Uneventful(cfg, s, first) && SweepDone(After(cfg, s, first))
    requires var a := After(cfg, s, first);
      && !RetiresNow(cfg, a) && Runs(cfg, Apply(cfg, a, EndSweep), second, true)
      && Uneventful(cfg, Apply(cfg, a, EndSweep), second)
      && SweepDone(After(cfg, Apply(cfg, a, EndSweep), second))
      && After(cfg, Apply(cfg, a, EndSweep), second).sweep.now >= a.sweep.now + cfg.margin
    ensures RetiresNow(cfg, After(cfg, Apply(cfg, After(cfg, s, first), EndSweep), second))
  {
    var a := After(cfg, s, first);
    RestAlongRun(cfg, s, first);
    var listing :| SweepsAll(a, listing);
    var b := Apply(cfg, a, EndSweep);
    FirstSweepIsRemembered(cfg, a, listing);
    RestStep(cfg, a, EndSweep);
    RestAlongRun(cfg, b, second);
    RemembersAlongRun(cfg, b, second, listing, a.sweep.now);
    LaterSweepDecides(cfg, After(cfg, b, second), listing, a.sweep.now);
  }

  // --- The margin is exact --------------------------------------------------------------------------------

  lemma {:induction false} RunsAppend(cfg: Config, s: State, steps: seq<Step>, step: Step, spawnWhileSampling: bool)
    requires Runs(cfg, s, steps, spawnWhileSampling) && Runs(cfg, s, steps, true)
    requires Enabled(cfg, After(cfg, s, steps), step, spawnWhileSampling)
    ensures Runs(cfg, s, steps + [step], spawnWhileSampling) && Runs(cfg, s, steps + [step], true)
    ensures After(cfg, s, steps + [step]) == Apply(cfg, After(cfg, s, steps), step)
    decreases |steps|
  {
    var all := steps + [step];
    if steps == [] {
      assert all == [step] && all[1..] == [];
    } else {
      assert all[0] == steps[0] && all[1..] == steps[1..] + [step];
      RunsAppend(cfg, Apply(cfg, s, steps[0]), steps[1..], step, spawnWhileSampling);
    }
  }

  ghost predicate Goes(cfg: Config, s: State, step: Step, s': State, spawnWhileSampling: bool) {
    Enabled(cfg, s, step, spawnWhileSampling) && Apply(cfg, s, step) == s'
  }

  /** The listed states, each one step after the one before. */
  ghost predicate Linked(cfg: Config, states: seq<State>, steps: seq<Step>, spawnWhileSampling: bool) {
    |states| == |steps| + 1 && forall k :: 0 <= k < |steps| ==>
      Goes(cfg, states[k], steps[k], states[k + 1], spawnWhileSampling)
  }

  lemma {:induction false} LinkedReach(cfg: Config, states: seq<State>, steps: seq<Step>, spawnWhileSampling: bool)
    requires Linked(cfg, states, steps, spawnWhileSampling) && Reachable(cfg, states[0], spawnWhileSampling)
    ensures Reachable(cfg, states[|steps|], spawnWhileSampling)
    decreases |steps|
  {
    if steps != [] {
      var n := |steps| - 1;
      LinkedReach(cfg, states[..n + 1], steps[..n], spawnWhileSampling);
      var s0, done :|
        && Init(cfg, s0) && Runs(cfg, s0, done, spawnWhileSampling)
        && Runs(cfg, s0, done, true) && After(cfg, s0, done) == states[n];
      assert Goes(cfg, states[n], steps[n], states[n + 1], spawnWhileSampling);
      RunsAppend(cfg, s0, done, steps[n], spawnWhileSampling);
    }
  }

  lemma InitIsReachable(cfg: Config, s: State, spawnWhileSampling: bool)
    requires Init(cfg, s)
    ensures Reachable(cfg, s, spawnWhileSampling)
  {
    assert After(cfg, s, []) == s;
  }

  lemma MisfireIsUnsound(cfg: Config, s: State, a: AgentId, spawnWhileSampling: bool)
    requires Reachable(cfg, s, spawnWhileSampling) && RetiresNow(cfg, s) && NoCounterSaturated(s.sweep.got)
    requires s.inflight != multiset{} || (a in s.agents && s.agents[a].live && Wakeable(s.agents[a]))
    ensures !Sound(cfg, spawnWhileSampling)
  {
    var s' := Apply(cfg, s, EndSweep);
    assert s'.agents == s.agents && s'.inflight == s.inflight;
  }

  const AWAKE_NEVER := Agent(true, false, Snapshot(true, false, 0, 0, 0, 0, 0, 0, 0), false, 0)
  const PARKED_NEVER := Agent(true, false, Snapshot(true, true, 1, 0, 0, 0, 0, 0, 0), false, 0)

  // --- A run that misfires whenever the margin is too short: a retire request arrives late

  const SAW_B := [Observation("b", PARKED_NEVER.snapshot)]
  const SAW_BOTH := SAW_B + [Observation("a", PARKED_NEVER.snapshot)]

  function Pair(clock: nat, a: Agent, b: Agent, inflight: multiset<Signal>, sweep: Sweep, tracker: Tracker): State {
    State(clock, map["a" := a, "b" := b], inflight, sweep, tracker)
  }

  /** A sweep of both agents, `b` first. */
  lemma SweepOfB(cfg: Config, now: nat, a: Agent, b: Agent, t: Tracker)
    requires b.live && b.snapshot == PARKED_NEVER.snapshot
    ensures Linked(cfg,
      [Pair(now, a, b, multiset{}, Idle, t), Pair(now, a, b, multiset{}, Started(now), t),
       Pair(now, a, b, multiset{}, Sampling(now, ["b", "a"], []), t),
       Pair(now, a, b, multiset{}, Sampling(now, ["a"], SAW_B), t)],
      [BeginSweep, List(["b", "a"]), SampleNext], false)
  {
    assert forall x: AgentId :: x in ["b", "a"] <==> x == "a" || x == "b";
    assert ["b", "a"][1..] == ["a"] && [] + [Observation("b", b.snapshot)] == SAW_B;
  }

  lemma SweepOfA(cfg: Config, s: State, now: nat, a: Agent, b: Agent)
    requires a.live && a.snapshot == PARKED_NEVER.snapshot
    requires s == Pair(s.clock, a, b, s.inflight, Sampling(now, ["a"], SAW_B), s.tracker)
    ensures Linked(cfg, [s, s.(sweep := Sampling(now, [], SAW_BOTH))], [SampleNext], false)
  {
    assert ["a"][1..] == [];
  }

  /** After `b` was sampled time passes; then `a` asks it to retire, and parks before its own turn. */
  lemma SweepTakesTime(cfg: Config, lag: nat, sweep: Sweep)
    requires lag <= cfg.sweep && !sweep.Idle? && sweep.now == 0
    ensures Linked(cfg,
      [Pair(0, AWAKE_NEVER, PARKED_NEVER, multiset{}, sweep, FRESH),
       Pair(lag, AWAKE_NEVER, PARKED_NEVER, multiset{}, sweep, FRESH)],
      [Elapse(lag)], false)
  {
  }

  lemma RetireSentLate(cfg: Config, lag: nat, sweep: Sweep)
    ensures
      var sig := multiset{Signal("b", RetireRequest, lag)};
      Linked(cfg,
        [Pair(lag, AWAKE_NEVER, PARKED_NEVER, multiset{}, sweep, FRESH),
         Pair(lag, AWAKE_NEVER, PARKED_NEVER, sig, sweep, FRESH),
         Pair(lag, PARKED_NEVER.(requestedSince := lag), PARKED_NEVER, sig, sweep, FRESH)],
        [Send("a", "b", RetireRequest), Park("a")], false)
  {
  }

  lemma RetireArrivesLate(cfg: Config, t: Tracker, lag: nat, fly: nat, wait: nat)
    requires fly <= cfg.delivery && wait <= cfg.wake
    ensures
      var a, b := PARKED_NEVER.(requestedSince := lag),
        PARKED_NEVER.(retireRequested := true, requestedSince := lag + fly);
      var sig := Signal("b", RetireRequest, lag);
      Linked(cfg,
        [Pair(lag, a, PARKED_NEVER, multiset{sig}, Idle, t), Pair(lag + fly, a, PARKED_NEVER, multiset{sig}, Idle, t),
         Pair(lag + fly, a, b, multiset{}, Idle, t), Pair(lag + fly + wait, a, b, multiset{}, Idle, t)],
        [Elapse(fly), Deliver(sig), Elapse(wait)], false)
  {
  }

  lemma FirstSweepEnds(cfg: Config, s: State, got: seq<Observation>)
    requires s.sweep == Sampling(0, [], got) && s.tracker == FRESH && AllQuiescent(got)
    ensures Linked(cfg, [s, s.(sweep := Idle, tracker := Tracker(Some(0), Some(Digest(got))))], [EndSweep], false)
  {
  }

  lemma RetireSentMidSweep(cfg: Config, lag: nat)
    requires lag <= cfg.sweep
    ensures Reachable(cfg,
      Pair(lag, PARKED_NEVER.(requestedSince := lag), PARKED_NEVER, multiset{Signal("b", RetireRequest, lag)},
                                Sampling(0, ["a"], SAW_B), FRESH), false)
  {
    var sweep, sig := Sampling(0, ["a"], SAW_B), multiset{Signal("b", RetireRequest, lag)};
    var a := PARKED_NEVER.(requestedSince := lag);
    var s0 := Pair(0, AWAKE_NEVER, PARKED_NEVER, multiset{}, Idle, FRESH);
    InitIsReachable(cfg, s0, false);
    SweepOfB(cfg, 0, AWAKE_NEVER, PARKED_NEVER, FRESH);
    LinkedReach(cfg,
      [s0, Pair(0, AWAKE_NEVER, PARKED_NEVER, multiset{}, Started(0), FRESH),
       Pair(0, AWAKE_NEVER, PARKED_NEVER, multiset{}, Sampling(0, ["b", "a"], []), FRESH),
       Pair(0, AWAKE_NEVER, PARKED_NEVER, multiset{}, sweep, FRESH)],
      [BeginSweep, List(["b", "a"]), SampleNext], false);
    SweepTakesTime(cfg, lag, sweep);
    LinkedReach(cfg,
      [Pair(0, AWAKE_NEVER, PARKED_NEVER, multiset{}, sweep, FRESH),
       Pair(lag, AWAKE_NEVER, PARKED_NEVER, multiset{}, sweep, FRESH)],
      [Elapse(lag)], false);
    RetireSentLate(cfg, lag, sweep);
    LinkedReach(cfg,
      [Pair(lag, AWAKE_NEVER, PARKED_NEVER, multiset{}, sweep, FRESH),
       Pair(lag, AWAKE_NEVER, PARKED_NEVER, sig, sweep, FRESH),
       Pair(lag, a, PARKED_NEVER, sig, sweep, FRESH)],
      [Send("a", "b", RetireRequest), Park("a")], false);
  }

  lemma RetireSentReachable(cfg: Config, lag: nat)
    requires lag <= cfg.sweep
    ensures Reachable(cfg,
      Pair(lag, PARKED_NEVER.(requestedSince := lag), PARKED_NEVER, multiset{Signal("b", RetireRequest, lag)},
                                Idle, Tracker(Some(0), Some(Digest(SAW_BOTH)))), false)
  {
    var a := PARKED_NEVER.(requestedSince := lag);
    var s := Pair(lag, a, PARKED_NEVER, multiset{Signal("b", RetireRequest, lag)}, Sampling(0, ["a"], SAW_B), FRESH);
    RetireSentMidSweep(cfg, lag);
    SweepOfA(cfg, s, 0, a, PARKED_NEVER);
    var s' := s.(sweep := Sampling(0, [], SAW_BOTH));
    LinkedReach(cfg, [s, s'], [SampleNext], false);
    FirstSweepEnds(cfg, s', SAW_BOTH);
    LinkedReach(cfg, [s', s'.(sweep := Idle, tracker := Tracker(Some(0), Some(Digest(SAW_BOTH))))], [EndSweep], false);
  }

  lemma RetireArrivedReachable(cfg: Config, lag: nat, fly: nat, wait: nat)
    requires lag <= cfg.sweep && fly <= cfg.delivery && wait <= cfg.wake
    ensures Reachable(cfg, Pair(lag + fly + wait, PARKED_NEVER.(requestedSince := lag),
                                PARKED_NEVER.(retireRequested := true, requestedSince := lag + fly),
                                multiset{}, Idle, Tracker(Some(0), Some(Digest(SAW_BOTH)))), false)
  {
    var a, b := PARKED_NEVER.(requestedSince := lag),
      PARKED_NEVER.(retireRequested := true, requestedSince := lag + fly);
    var t, sig := Tracker(Some(0), Some(Digest(SAW_BOTH))), Signal("b", RetireRequest, lag);
    RetireSentReachable(cfg, lag);
    RetireArrivesLate(cfg, t, lag, fly, wait);
    LinkedReach(cfg,
      [Pair(lag, a, PARKED_NEVER, multiset{sig}, Idle, t), Pair(lag + fly, a, PARKED_NEVER, multiset{sig}, Idle, t),
       Pair(lag + fly, a, b, multiset{}, Idle, t), Pair(lag + fly + wait, a, b, multiset{}, Idle, t)],
      [Elapse(fly), Deliver(sig), Elapse(wait)], false);
  }

  /** With a margin a delivery, a wake and a sweep can fill, some run retires a graph that is about to act. */
  lemma MarginTooShort(cfg: Config)
    requires !MarginCovers(cfg)
    ensures !Sound(cfg, false)
  {
    var lag := if cfg.margin <= cfg.sweep then cfg.margin else cfg.sweep;
    var fly := if cfg.margin - lag <= cfg.delivery then cfg.margin - lag else cfg.delivery;
    var a, b := PARKED_NEVER.(requestedSince := lag),
      PARKED_NEVER.(retireRequested := true, requestedSince := lag + fly);
    var t := Tracker(Some(0), Some(Digest(SAW_BOTH)));
    RetireArrivedReachable(cfg, lag, fly, cfg.margin - lag - fly);
    SweepOfB(cfg, cfg.margin, a, b, t);
    var s := Pair(cfg.margin, a, b, multiset{}, Sampling(cfg.margin, ["a"], SAW_B), t);
    LinkedReach(cfg,
      [Pair(cfg.margin, a, b, multiset{}, Idle, t), Pair(cfg.margin, a, b, multiset{}, Started(cfg.margin), t),
       Pair(cfg.margin, a, b, multiset{}, Sampling(cfg.margin, ["b", "a"], []), t), s],
      [BeginSweep, List(["b", "a"]), SampleNext], false);
    SweepOfA(cfg, s, cfg.margin, a, b);
    var s' := s.(sweep := Sampling(cfg.margin, [], SAW_BOTH));
    LinkedReach(cfg, [s, s'], [SampleNext], false);
    MisfireIsUnsound(cfg, s', "b", false);
  }

  /** Exactly the margins longer than a delivery, a wake and a sweep make `Retire` safe on every run. */
  lemma MarginIsExact(cfg: Config)
    ensures Sound(cfg, false) <==> MarginCovers(cfg)
  {
    if MarginCovers(cfg) {
      MarginSuffices(cfg);
    } else {
      MarginTooShort(cfg);
    }
  }

  // --- A run that misfires for every margin: agents spawned while a sweep samples

  const NEWBORN := Agent(true, false, Snapshot(true, true, 0, 0, 0, 0, 0, 0, 0), false, 0)
  const SAW_P := [Observation("p", PARKED_NEVER.snapshot)]

  /** Every sweep reads the clock exactly `gap` after the one before, the first one `gap` after `last`. */
  ghost predicate Paced(cfg: Config, s: State, steps: seq<Step>, gap: nat, last: nat)
    requires Runs(cfg, s, steps, true)
    decreases |steps|
  {
    steps != [] ==>
      && (steps[0].BeginSweep? ==> s.clock == last + gap)
      && Paced(cfg, Apply(cfg, s, steps[0]), steps[1..], gap, if steps[0].BeginSweep? then s.clock else last)
  }

  /** The detector is about to retire a graph that is alive, with no counter near its ceiling. */
  ghost predicate Misfires(cfg: Config, s: State) {
    RetiresNow(cfg, s) && NoCounterSaturated(s.sweep.got) && !Dead(Apply(cfg, s, EndSweep))
  }

  ghost predicate WillMisfire(cfg: Config, s: State, gap: nat, last: nat) {
    exists steps :: Runs(cfg, s, steps, true) && Paced(cfg, s, steps, gap, last) && Misfires(cfg, After(cfg, s, steps))
  }

  lemma MisfireNow(cfg: Config, s: State, gap: nat, last: nat)
    requires Misfires(cfg, s)
    ensures WillMisfire(cfg, s, gap, last)
  {
    assert After(cfg, s, []) == s && Paced(cfg, s, [], gap, last);
  }

  lemma MisfireAfter(cfg: Config, s: State, step: Step, s': State, gap: nat, last: nat)
    requires Goes(cfg, s, step, s', true) && (step.BeginSweep? ==> s.clock == last + gap)
    requires WillMisfire(cfg, s', gap, if step.BeginSweep? then s.clock else last)
    ensures WillMisfire(cfg, s, gap, last)
  {
    var next := if step.BeginSweep? then s.clock else last;
    var rest :| Runs(cfg, s', rest, true) && Paced(cfg, s', rest, gap, next) && Misfires(cfg, After(cfg, s', rest));
    StepThenRun(cfg, s, step, s', rest);
    StepThenPace(cfg, s, step, s', rest, gap, last);
    var steps := [step] + rest;
    assert Runs(cfg, s, steps, true) && Paced(cfg, s, steps, gap, last) && Misfires(cfg, After(cfg, s, steps));
  }

  lemma StepThenRun(cfg: Config, s: State, step: Step, s': State, rest: seq<Step>)
    requires Goes(cfg, s, step, s', true) && Runs(cfg, s', rest, true)
    ensures Runs(cfg, s, [step] + rest, true) && After(cfg, s, [step] + rest) == After(cfg, s', rest)
  {
    var steps := [step] + rest;
    assert steps[0] == step && steps[1..] == rest;
  }

  lemma StepThenPace(cfg: Config, s: State, step: Step, s': State, rest: seq<Step>, gap: nat, last: nat)
    requires Goes(cfg, s, step, s', true) && Runs(cfg, s', rest, true) && Runs(cfg, s, [step] + rest, true)
    requires step.BeginSweep? ==> s.clock == last + gap
    requires Paced(cfg, s', rest, gap, if step.BeginSweep? then s.clock else last)
    ensures Paced(cfg, s, [step] + rest, gap, last)
  {
    var steps := [step] + rest;
    assert steps[0] == step && steps[1..] == rest;
  }

  lemma MisfireAfterTwo(
    cfg: Config, first: State, one: Step, second: State, two: Step, third: State, gap: nat, last: nat)
    requires Goes(cfg, first, one, second, true) && Goes(cfg, second, two, third, true)
    requires !one.BeginSweep? && !two.BeginSweep? && WillMisfire(cfg, third, gap, last)
    ensures WillMisfire(cfg, first, gap, last)
  {
    MisfireAfter(cfg, second, two, third, gap, last);
    MisfireAfter(cfg, first, one, second, gap, last);
  }

  /** `listing` names the agents: first `p`, parked for good; then closed ones; last `c`, alive. */
  ghost predicate Lineage(agents: map<AgentId, Agent>, listing: seq<AgentId>, c: AgentId) {
    && Distinct(listing) && (forall a :: a in listing <==> a in agents)
    && |listing| >= 2 && listing[0] == "p" && listing[|listing| - 1] == c
    && agents["p"] == PARKED_NEVER && agents[c].live
    && (forall k :: 1 <= k < |listing| - 1 ==> !agents[listing[k]].live)
  }

  /** Between two sweeps: nothing in flight, and only `c` awake, whom no sample has shown yet. */
  ghost predicate Unseen(s: State, listing: seq<AgentId>, c: AgentId) {
    && s.sweep == Idle && s.inflight == multiset{} && Lineage(s.agents, listing, c)
    && !s.agents[c].snapshot.parked
    && (forall a :: a in s.agents ==> s.agents[a].requestedSince <= s.clock && !s.agents[a].retireRequested)
  }

  /** A name longer than every name in use. */
  function NextName(listing: seq<AgentId>): (r: AgentId)
    ensures forall a :: a in listing ==> |a| < |r|
  {
    if listing == [] then "c"
    else
      var rest := NextName(listing[1..]);
      if |listing[0]| < |rest| then rest else listing[0] + "c"
  }

  /** After the listing `c` has spawned `child` and closed. */
  function HandedOver(agents: map<AgentId, Agent>, c: AgentId, child: AgentId, clock: nat): map<AgentId, Agent>
    requires c in agents
  {
    agents[child := NEWBORN.(requestedSince := clock)][c := agents[c].(live := false)]
  }

  /** Later the child wakes. */
  function ChildAwake(agents: map<AgentId, Agent>, child: AgentId): map<AgentId, Agent>
    requires child in agents
  {
    agents[child := agents[child].(snapshot := agents[child].snapshot.(parked := false))]
  }

  lemma ChildIsNew(s: State, listing: seq<AgentId>, c: AgentId)
    requires Unseen(s, listing, c)
    ensures NextName(listing) !in s.agents && c != "p" && c in s.agents && NextName(listing) != c
  {
    assert listing[|listing| - 1] in listing && listing[0] in listing;
  }

  lemma LongerListing(listing: seq<AgentId>, child: AgentId)
    requires Distinct(listing) && child !in listing
    ensures Distinct(listing + [child]) && forall a :: a in listing + [child] <==> a in listing || a == child
  {
  }

  /** Every listed agent but the first is closed once the last has handed over. */
  lemma ListedAreClosed(s: State, listing: seq<AgentId>, c: AgentId, child: AgentId, clock: nat)
    requires Unseen(s, listing, c) && child !in s.agents && c != "p"
    ensures var agents := HandedOver(s.agents, c, child, clock);
      && "p" in agents && agents["p"] == PARKED_NEVER
      && forall k :: 1 <= k < |listing| ==> listing[k] in agents && listing[k] != child && !agents[listing[k]].live
  {
    assert forall k :: 0 <= k < |listing| ==> listing[k] in listing;
    assert forall k :: 1 <= k < |listing| - 1 ==> listing[k] != c;
  }

  lemma ChildIsAwake(s: State, listing: seq<AgentId>, c: AgentId, child: AgentId, clock: nat)
    requires Unseen(s, listing, c) && c in s.agents && child !in s.agents && child != c && s.clock <= clock
    ensures var agents := ChildAwake(HandedOver(s.agents, c, child, clock), child);
      && agents[child].live && !agents[child].snapshot.parked
      && (forall a :: a in agents <==> a in s.agents || a == child)
      && (forall a :: a in agents ==> agents[a].requestedSince <= clock && !agents[a].retireRequested)
      && (forall a :: a in agents && a != child ==> agents[a] == HandedOver(s.agents, c, child, clock)[a])
  {
  }

  lemma LineageGoesOn(s: State, listing: seq<AgentId>, c: AgentId, child: AgentId, clock: nat, tracker: Tracker)
    requires Unseen(s, listing, c) && child == NextName(listing) && s.clock <= clock
    requires c in s.agents && child !in s.agents && child != c
    ensures Unseen(
      State(clock, ChildAwake(HandedOver(s.agents, c, child, clock), child), multiset{}, Idle, tracker),
      listing + [child], child)
  {
    var longer := listing + [child];
    ChildIsNew(s, listing, c);
    LongerListing(listing, child);
    ListedAreClosed(s, listing, c, child, clock);
    ChildIsAwake(s, listing, c, child, clock);
    assert forall k :: 1 <= k < |listing| ==> longer[k] == listing[k];
  }

  /** The sweep opens, lists, and `c` hands over before anyone is sampled. */
  lemma BeforeHandOver(
    cfg: Config, s: State, listing: seq<AgentId>, c: AgentId, child: AgentId, gap: nat, now: nat, handed: State)
    requires Unseen(s, listing, c) && child == NextName(listing) && child !in s.agents && c != "p" && c in s.agents
    requires handed == HandedState(s, listing, c, gap) && now == s.clock + gap
    requires WillMisfire(cfg, handed, gap, now)
    ensures WillMisfire(cfg, s, gap, s.clock)
  {
    var listed := ListedState(s, listing, now);
    var spawned := Put(listed, child, NEWBORN.(requestedSince := now));
    HandOverIsTwoSteps(cfg, s, listing, c, child, gap, now, listed);
    MisfireAfterTwo(cfg, listed, Spawn(c, child, true), spawned, Close(c), handed, gap, now);
    BeforeListing(cfg, s, listing, c, gap, now, listed);
  }

  lemma BeforeListing(cfg: Config, s: State, listing: seq<AgentId>, c: AgentId, gap: nat, now: nat, listed: State)
    requires Unseen(s, listing, c) && c in s.agents && now == s.clock + gap && listed == ListedState(s, listing, now)
    requires WillMisfire(cfg, listed, gap, now)
    ensures WillMisfire(cfg, s, gap, s.clock)
  {
    var waited, started := Waited(s, now), Waited(s, now).(sweep := Started(now));
    OpeningSteps(cfg, s, listing, c, gap, now);
    MisfireAfter(cfg, started, List(listing), listed, gap, now);
    MisfireAfter(cfg, waited, BeginSweep, started, gap, s.clock);
    MisfireAfter(cfg, s, Elapse(gap), waited, gap, s.clock);
  }

  function Waited(s: State, now: nat): State {
    s.(clock := now)
  }

  function ListedState(s: State, listing: seq<AgentId>, now: nat): State {
    Waited(s, now).(sweep := Sampling(now, listing, []))
  }

  lemma OpeningSteps(cfg: Config, s: State, listing: seq<AgentId>, c: AgentId, gap: nat, now: nat)
    requires Unseen(s, listing, c) && c in s.agents && now == s.clock + gap
    ensures Goes(cfg, s, Elapse(gap), Waited(s, now), true)
    ensures Goes(cfg, Waited(s, now), BeginSweep, Waited(s, now).(sweep := Started(now)), true)
    ensures Goes(cfg, Waited(s, now).(sweep := Started(now)), List(listing), ListedState(s, listing, now), true)
  {
  }

  lemma HandOverIsTwoSteps(
    cfg: Config, s: State, listing: seq<AgentId>, c: AgentId, child: AgentId, gap: nat, now: nat, listed: State)
    requires Unseen(s, listing, c) && c in s.agents && child == NextName(listing) && child !in s.agents
    requires now == s.clock + gap && listed == ListedState(s, listing, now)
    ensures var spawned := Put(listed, child, NEWBORN.(requestedSince := now));
      && Goes(cfg, listed, Spawn(c, child, true), spawned, true)
      && Goes(cfg, spawned, Close(c), HandedState(s, listing, c, gap), true)
  {
  }

  /** Sampling closed agents adds nothing. */
  lemma {:induction false} SamplingClosedAgents(cfg: Config, s: State, gap: nat, last: nat)
    requires s.sweep.Sampling? && forall k :: 0 <= k < |s.sweep.todo| ==>
      s.sweep.todo[k] in s.agents && !s.agents[s.sweep.todo[k]].live
    requires WillMisfire(cfg, s.(sweep := s.sweep.(todo := [])), gap, last)
    ensures WillMisfire(cfg, s, gap, last)
    decreases |s.sweep.todo|
  {
    if s.sweep.todo == [] {
      assert s.(sweep := s.sweep.(todo := [])) == s;
    } else {
      var s' := s.(sweep := s.sweep.(todo := s.sweep.todo[1..]));
      assert s.sweep.got + [] == s.sweep.got;
      SamplingClosedAgents(cfg, s', gap, last);
      MisfireAfter(cfg, s, SampleNext, s', gap, last);
    }
  }

  /** Of the agents listed, the samples show `p` alone. */
  lemma SamplesShowParentOnly(cfg: Config, handed: State, listing: seq<AgentId>, gap: nat, last: nat, sampled: State)
    requires handed.sweep == Sampling(handed.clock, listing, []) && listing != [] && listing[0] == "p"
    requires "p" in handed.agents && handed.agents["p"] == PARKED_NEVER
    requires forall k :: 1 <= k < |listing| ==> listing[k] in handed.agents && !handed.agents[listing[k]].live
    requires sampled == handed.(sweep := Sampling(handed.clock, [], SAW_P)) && WillMisfire(cfg, sampled, gap, last)
    ensures WillMisfire(cfg, handed, gap, last)
  {
    var s' := handed.(sweep := Sampling(handed.clock, listing[1..], SAW_P));
    assert [] + SAW_P == SAW_P;
    assert s'.(sweep := s'.sweep.(todo := [])) == sampled;
    SamplingClosedAgents(cfg, s', gap, last);
    MisfireAfter(cfg, handed, SampleNext, s', gap, last);
  }

  /** The sweep ends without a verdict and the child wakes. */
  lemma ChildOutlivesSweep(cfg: Config, sampled: State, child: AgentId, gap: nat, last: nat, next: State)
    requires sampled.sweep == Sampling(sampled.clock, [], SAW_P)
    requires child in sampled.agents && sampled.agents[child] == NEWBORN.(requestedSince := sampled.clock)
    requires next == State(sampled.clock, ChildAwake(sampled.agents, child), sampled.inflight, Idle,
      SweepResult(cfg, sampled).0)
    requires WillMisfire(cfg, next, gap, last)
    ensures WillMisfire(cfg, sampled, gap, last)
  {
    EndsThenWakes(cfg, sampled, child, next);
    MisfireAfterTwo(
      cfg, sampled, EndSweep, sampled.(sweep := Idle, tracker := SweepResult(cfg, sampled).0), Wake(child), next, gap,
      last);
  }

  lemma EndsThenWakes(cfg: Config, sampled: State, child: AgentId, next: State)
    requires sampled.sweep == Sampling(sampled.clock, [], SAW_P)
    requires child in sampled.agents && sampled.agents[child] == NEWBORN.(requestedSince := sampled.clock)
    requires next == State(sampled.clock, ChildAwake(sampled.agents, child), sampled.inflight, Idle,
      SweepResult(cfg, sampled).0)
    ensures var ended := sampled.(sweep := Idle, tracker := SweepResult(cfg, sampled).0);
      Goes(cfg, sampled, EndSweep, ended, true) && Goes(cfg, ended, Wake(child), next, true)
  {
  }

  lemma NewbornIsAlive(cfg: Config, sampled: State, child: AgentId)
    requires sampled.sweep == Sampling(sampled.clock, [], SAW_P) && SweepResult(cfg, sampled).1 == Retire
    requires child in sampled.agents && sampled.agents[child] == NEWBORN.(requestedSince := sampled.clock)
    ensures Misfires(cfg, sampled)
  {
    assert Apply(cfg, sampled, EndSweep).agents == sampled.agents;
    assert Wakeable(sampled.agents[child]);
  }

  /** The end of the next sweep, `gap` later. */
  function SweptState(s: State, listing: seq<AgentId>, c: AgentId, gap: nat): State
    requires c in s.agents
  {
    State(s.clock + gap, HandedOver(s.agents, c, NextName(listing), s.clock + gap), multiset{},
          Sampling(s.clock + gap, [], SAW_P), s.tracker)
  }

  /** And the state after it, once the child is awake, if the detector remembers `tracker`. */
  function NextState(s: State, listing: seq<AgentId>, c: AgentId, gap: nat, tracker: Tracker): State
    requires c in s.agents && NextName(listing) != c
  {
    State(s.clock + gap, ChildAwake(SweptState(s, listing, c, gap).agents, NextName(listing)), multiset{}, Idle,
      tracker)
  }

  lemma NextIsUnseen(s: State, listing: seq<AgentId>, c: AgentId, gap: nat, tracker: Tracker)
    requires Unseen(s, listing, c)
    ensures c in s.agents && NextName(listing) != c
    ensures Unseen(NextState(s, listing, c, gap, tracker), listing + [NextName(listing)], NextName(listing))
  {
    ChildIsNew(s, listing, c);
    LineageGoesOn(s, listing, c, NextName(listing), s.clock + gap, tracker);
  }

  /** What leads to a misfire from the end of a sweep leads to one from before it. */
  lemma BeforeSweep(cfg: Config, s: State, listing: seq<AgentId>, c: AgentId, gap: nat, now: nat, sampled: State)
    requires Unseen(s, listing, c) && c in s.agents && sampled == SweptState(s, listing, c, gap) && now == s.clock + gap
    requires WillMisfire(cfg, sampled, gap, now)
    ensures WillMisfire(cfg, s, gap, s.clock)
  {
    var child, handed := NextName(listing), HandedState(s, listing, c, gap);
    HandedIsUnsampled(s, listing, c, gap);
    SamplesShowParentOnly(cfg, handed, listing, gap, now, sampled);
    BeforeHandOver(cfg, s, listing, c, child, gap, now, handed);
  }

  function HandedState(s: State, listing: seq<AgentId>, c: AgentId, gap: nat): State
    requires c in s.agents
  {
    State(s.clock + gap, HandedOver(s.agents, c, NextName(listing), s.clock + gap), multiset{},
          Sampling(s.clock + gap, listing, []), s.tracker)
  }

  lemma HandedThenSwept(s: State, listing: seq<AgentId>, c: AgentId, gap: nat)
    requires c in s.agents
    ensures var handed := HandedState(s, listing, c, gap);
      handed.(sweep := Sampling(handed.clock, [], SAW_P)) == SweptState(s, listing, c, gap)
  {
  }

  lemma HandedIsUnsampled(s: State, listing: seq<AgentId>, c: AgentId, gap: nat)
    requires Unseen(s, listing, c) && c in s.agents
    ensures NextName(listing) !in s.agents && c != "p"
    ensures var handed := HandedState(s, listing, c, gap);
      && handed.(sweep := Sampling(handed.clock, [], SAW_P)) == SweptState(s, listing, c, gap)
      && "p" in handed.agents && handed.agents["p"] == PARKED_NEVER
      && forall k :: 1 <= k < |listing| ==> listing[k] in handed.agents && !handed.agents[listing[k]].live
  {
    ChildIsNew(s, listing, c);
    HandedThenSwept(s, listing, c, gap);
    ListedAreClosed(s, listing, c, NextName(listing), s.clock + gap);
  }

  lemma SweptHasNewborn(s: State, listing: seq<AgentId>, c: AgentId, gap: nat)
    requires Unseen(s, listing, c) && c in s.agents && NextName(listing) != c
    ensures var sampled, child := SweptState(s, listing, c, gap), NextName(listing);
      child in sampled.agents && sampled.agents[child] == NEWBORN.(requestedSince := sampled.clock)
  {
  }

  /** A sweep of the lineage at which the detector fires is a misfire. */
  lemma SweptAndFired(cfg: Config, s: State, listing: seq<AgentId>, c: AgentId, gap: nat, now: nat, sampled: State)
    requires Unseen(s, listing, c) && c in s.agents && NextName(listing) != c
    requires sampled == SweptState(s, listing, c, gap)
    requires SweepResult(cfg, sampled).1 == Retire && now == s.clock + gap
    ensures WillMisfire(cfg, s, gap, s.clock)
  {
    SweptHasNewborn(s, listing, c, gap);
    NewbornIsAlive(cfg, sampled, NextName(listing));
    MisfireNow(cfg, sampled, gap, now);
    BeforeSweep(cfg, s, listing, c, gap, now, sampled);
  }

  /** After a sweep at which the detector waits, what follows decides. */
  lemma SweptAndWaited(
    cfg: Config, s: State, listing: seq<AgentId>, c: AgentId, gap: nat, tracker: Tracker, now: nat, sampled: State,
    next: State)
    requires Unseen(s, listing, c) && c in s.agents && NextName(listing) != c
    requires sampled == SweptState(s, listing, c, gap)
    requires SweepResult(cfg, sampled).0 == tracker && next == NextState(s, listing, c, gap, tracker)
    requires now == s.clock + gap && WillMisfire(cfg, next, gap, now)
    ensures WillMisfire(cfg, s, gap, s.clock)
  {
    SweptHasNewborn(s, listing, c, gap);
    ChildOutlivesSweep(cfg, sampled, NextName(listing), gap, now, next);
    BeforeSweep(cfg, s, listing, c, gap, now, sampled);
  }

  lemma ParentSampleOpens(cfg: Config, sampled: State)
    requires sampled.sweep == Sampling(sampled.clock, [], SAW_P) && sampled.tracker == FRESH
    ensures SweepResult(cfg, sampled) == (Tracker(Some(sampled.clock), Some(Digest(SAW_P))), Wait)
  {
  }

  lemma ParentSampleRepeats(cfg: Config, sampled: State, since: nat)
    requires sampled.sweep == Sampling(sampled.clock, [], SAW_P) && since <= sampled.clock
    requires sampled.tracker == Tracker(Some(since), Some(Digest(SAW_P)))
    ensures SweepResult(cfg, sampled) ==
      if sampled.clock - since >= cfg.margin then (FRESH, Retire) else (sampled.tracker, Wait)
  {
  }

  /** From its second sweep on, the detector sees the same quiescent sample at every sweep, and in the end it fires. */
  lemma {:induction false} LineageMisfires(
    cfg: Config, s: State, listing: seq<AgentId>, c: AgentId, gap: nat, since: nat, tracker: Tracker, now: nat)
    requires gap > 0 && Unseen(s, listing, c) && since <= now == s.clock && s.tracker == tracker
    requires tracker == Tracker(Some(since), Some(Digest(SAW_P)))
    ensures WillMisfire(cfg, s, gap, now)
    decreases since + cfg.margin - now
  {
    NextIsUnseen(s, listing, c, gap, tracker);
    var sampled, next := SweptState(s, listing, c, gap), NextState(s, listing, c, gap, tracker);
    var later, child := now + gap, NextName(listing);
    var longer := listing + [child];
    ParentSampleRepeats(cfg, sampled, since);
    if later < since + cfg.margin {
      LineageMisfires(cfg, next, longer, child, gap, since, tracker, later);
      SweptAndWaited(cfg, s, listing, c, gap, tracker, later, sampled, next);
    } else {
      SweptAndFired(cfg, s, listing, c, gap, later, sampled);
    }
  }

  lemma LineageMisfiresFromFresh(cfg: Config, s: State, listing: seq<AgentId>, c: AgentId, gap: nat, tracker: Tracker)
    requires gap > 0 && Unseen(s, listing, c) && s.clock == 0 && s.tracker == FRESH
    requires tracker == Tracker(Some(gap), Some(Digest(SAW_P)))
    ensures WillMisfire(cfg, s, gap, 0)
  {
    NextIsUnseen(s, listing, c, gap, tracker);
    var sampled, next := SweptState(s, listing, c, gap), NextState(s, listing, c, gap, tracker);
    ParentSampleOpens(cfg, sampled);
    LineageMisfires(cfg, next, listing + [NextName(listing)], NextName(listing), gap, gap, tracker, gap);
    SweptAndWaited(cfg, s, listing, c, gap, tracker, gap, sampled, next);
  }

  lemma FirstOfLineage(cfg: Config) returns (s: State, listing: seq<AgentId>, c: AgentId)
    ensures Init(cfg, s) && Unseen(s, listing, c) && s.clock == 0 && s.tracker == FRESH
  {
    s, listing, c := State(0, map["p" := PARKED_NEVER, "c" := AWAKE_NEVER], multiset{}, Idle, FRESH), ["p", "c"], "c";
    assert forall a: AgentId :: a in ["p", "c"] <==> a == "p" || a == "c";
  }

  /**
   No margin helps if agents may be spawned between the listing and the end of a sweep, however regularly and often
   the sweeps come: an awake agent can spawn its successor and close in every sweep, so that no sample shows it.
   */
  lemma SpawnWhileSamplingDefeatsEveryMargin(cfg: Config, gap: nat)
    requires gap > 0
    ensures exists s :: Init(cfg, s) && s.clock == 0 && WillMisfire(cfg, s, gap, 0)
    ensures !Sound(cfg, true)
  {
    var s, listing, c := FirstOfLineage(cfg);
    LineageMisfiresFromFresh(cfg, s, listing, c, gap, Tracker(Some(gap), Some(Digest(SAW_P))));
    WillMisfireIsUnsound(cfg, s, gap, 0);
  }

  lemma WillMisfireIsUnsound(cfg: Config, s: State, gap: nat, last: nat)
    requires Init(cfg, s) && WillMisfire(cfg, s, gap, last)
    ensures !Sound(cfg, true)
  {
    var steps :| Runs(cfg, s, steps, true) && Paced(cfg, s, steps, gap, last) && Misfires(cfg, After(cfg, s, steps));
    assert Reachable(cfg, After(cfg, s, steps), true);
  }

  // --- A run that misfires for every margin: a counter that has reached its ceiling

  /** Parked, its trigger counter at the ceiling, in its `tick`-th rest. */
  function Full(tick: nat, since: nat): Agent {
    Agent(true, false, Snapshot(true, true, tick, 0, 0, 0, U64_MAX, 0, 0), false, since)
  }

  function SawFull(tick: nat): seq<Observation> {
    [Observation("b", Full(tick, 0).snapshot)]
  }

  function SawFullBoth(tick: nat): seq<Observation> {
    SawFull(tick) + [Observation("a", PARKED_NEVER.snapshot)]
  }

  lemma FullSampled(cfg: Config)
    ensures Linked(cfg,
      [Pair(0, AWAKE_NEVER, Full(1, 0), multiset{}, Idle, FRESH),
       Pair(0, AWAKE_NEVER, Full(1, 0), multiset{}, Started(0), FRESH),
       Pair(0, AWAKE_NEVER, Full(1, 0), multiset{}, Sampling(0, ["b", "a"], []), FRESH),
       Pair(0, AWAKE_NEVER, Full(1, 0), multiset{}, Sampling(0, ["a"], SawFull(1)), FRESH)],
      [BeginSweep, List(["b", "a"]), SampleNext], false)
  {
    assert forall x: AgentId :: x in ["b", "a"] <==> x == "a" || x == "b";
    assert ["b", "a"][1..] == ["a"] && [] + SawFull(1) == SawFull(1);
  }

  /** `a` triggers `b` between the two samples of a sweep and parks. */
  lemma TriggerBetweenSamples(cfg: Config, sweep: Sweep)
    ensures
      var sig := multiset{Signal("b", Trigger, 0)};
      Linked(cfg,
        [Pair(0, AWAKE_NEVER, Full(1, 0), multiset{}, sweep, FRESH),
         Pair(0, AWAKE_NEVER, Full(1, 0), sig, sweep, FRESH),
         Pair(0, PARKED_NEVER, Full(1, 0), sig, sweep, FRESH)],
        [Send("a", "b", Trigger), Park("a")], false)
  {
  }

  lemma ParkedSampled(cfg: Config, s: State)
    requires s == Pair(0, PARKED_NEVER, Full(1, 0), s.inflight, Sampling(0, ["a"], SawFull(1)), FRESH)
    ensures Linked(cfg, [s, s.(sweep := Sampling(0, [], SawFullBoth(1)))], [SampleNext], false)
  {
    assert ["a"][1..] == [];
  }

  /** `b` as the trigger finds it, and as the wake leaves it: its counter has not moved. */
  function Triggered(): Agent {
    Full(1, 0).(snapshot := Full(1, 0).snapshot.(pendingTriggers := 1))
  }

  function Roused(): Agent {
    Full(1, 0).(snapshot := Full(1, 0).snapshot.(parked := false))
  }

  lemma TriggerLeavesNoTrace(cfg: Config, t: Tracker)
    ensures
      var sig := Signal("b", Trigger, 0);
      Linked(cfg,
        [Pair(0, PARKED_NEVER, Full(1, 0), multiset{sig}, Idle, t),
         Pair(0, PARKED_NEVER, Triggered(), multiset{}, Idle, t),
         Pair(0, PARKED_NEVER, Roused(), multiset{}, Idle, t)],
        [Deliver(sig), Wake("b")], false)
  {
  }

  lemma BusyUntil(cfg: Config, m: nat, t: Tracker)
    ensures Linked(cfg,
      [Pair(0, PARKED_NEVER, Roused(), multiset{}, Idle, t), Pair(m, PARKED_NEVER, Roused(), multiset{}, Idle, t)],
      [Elapse(m)], false)
  {
  }

  lemma SignalsAndParks(cfg: Config, m: nat, t: Tracker)
    ensures
      var back := multiset{Signal("a", Trigger, m)};
      Linked(cfg,
        [Pair(m, PARKED_NEVER, Roused(), multiset{}, Idle, t), Pair(m, PARKED_NEVER, Roused(), back, Idle, t),
         Pair(m, PARKED_NEVER, Full(2, m), back, Idle, t)],
        [Send("b", "a", Trigger), Park("b")], false)
  {
  }

  lemma SecondDigestTaken(cfg: Config, m: nat, back: multiset<Signal>, t: Tracker)
    ensures Linked(cfg,
      [Pair(m, PARKED_NEVER, Full(2, m), back, Idle, t),
       Pair(m, PARKED_NEVER, Full(2, m), back, Started(m), t),
       Pair(m, PARKED_NEVER, Full(2, m), back, Sampling(m, ["b", "a"], []), t),
       Pair(m, PARKED_NEVER, Full(2, m), back, Sampling(m, ["a"], SawFull(2)), t),
       Pair(m, PARKED_NEVER, Full(2, m), back, Sampling(m, [], SawFullBoth(2)), t)],
      [BeginSweep, List(["b", "a"]), SampleNext, SampleNext], false)
  {
    assert forall x: AgentId :: x in ["b", "a"] <==> x == "a" || x == "b";
    assert ["b", "a"][1..] == ["a"] && ["a"][1..] == [] && [] + SawFull(2) == SawFull(2);
  }

  lemma FullEntries(tick: nat)
    ensures Entries(SawFullBoth(tick)) == [Entry("b", U64_MAX, 0, 0), Entry("a", 0, 0, 0)]
    ensures tick >= 1 ==> AllQuiescent(SawFullBoth(tick))
  {
    var x := SawFullBoth(tick);
    assert x == [x[0], x[1]] && x[1..] == [x[1]] && x[1..][1..] == [];
    assert Entries(x[1..][1..]) == [];
  }

  lemma RepeatRetires(margin: nat, d: seq<Entry>, agents: seq<Observation>)
    requires AllQuiescent(agents) && Digest(agents) == d
    ensures Next(Tracker(Some(0), Some(d)), margin, Sample(margin, agents)).1 == Retire
  {
  }

  lemma FullMidSweep(cfg: Config)
    ensures Reachable(cfg, Pair(0, PARKED_NEVER, Full(1, 0), multiset{Signal("b", Trigger, 0)},
      Sampling(0, ["a"], SawFull(1)), FRESH), false)
  {
    var sig, sweep := Signal("b", Trigger, 0), Sampling(0, ["a"], SawFull(1));
    InitIsReachable(cfg, Pair(0, AWAKE_NEVER, Full(1, 0), multiset{}, Idle, FRESH), false);
    FullSampled(cfg);
    LinkedReach(cfg,
      [Pair(0, AWAKE_NEVER, Full(1, 0), multiset{}, Idle, FRESH),
       Pair(0, AWAKE_NEVER, Full(1, 0), multiset{}, Started(0), FRESH),
       Pair(0, AWAKE_NEVER, Full(1, 0), multiset{}, Sampling(0, ["b", "a"], []), FRESH),
       Pair(0, AWAKE_NEVER, Full(1, 0), multiset{}, sweep, FRESH)],
      [BeginSweep, List(["b", "a"]), SampleNext], false);
    TriggerBetweenSamples(cfg, sweep);
    LinkedReach(cfg,
      [Pair(0, AWAKE_NEVER, Full(1, 0), multiset{}, sweep, FRESH),
       Pair(0, AWAKE_NEVER, Full(1, 0), multiset{sig}, sweep, FRESH),
       Pair(0, PARKED_NEVER, Full(1, 0), multiset{sig}, sweep, FRESH)],
      [Send("a", "b", Trigger), Park("a")], false);
  }

  lemma FullFirstSweep(cfg: Config, t: Tracker)
    requires t == Tracker(Some(0), Some(Digest(SawFullBoth(1))))
    ensures Reachable(cfg, Pair(0, PARKED_NEVER, Full(1, 0), multiset{Signal("b", Trigger, 0)}, Idle, t), false)
  {
    var s := Pair(0, PARKED_NEVER, Full(1, 0), multiset{Signal("b", Trigger, 0)}, Sampling(0, ["a"], SawFull(1)),
      FRESH);
    var s' := s.(sweep := Sampling(0, [], SawFullBoth(1)));
    FullMidSweep(cfg);
    ParkedSampled(cfg, s);
    LinkedReach(cfg, [s, s'], [SampleNext], false);
    FullEntries(1);
    FirstSweepEnds(cfg, s', SawFullBoth(1));
    LinkedReach(cfg, [s', s'.(sweep := Idle, tracker := t)], [EndSweep], false);
  }

  lemma FullBetweenSweeps(cfg: Config, m: nat, t: Tracker)
    requires Reachable(cfg, Pair(0, PARKED_NEVER, Full(1, 0), multiset{Signal("b", Trigger, 0)}, Idle, t), false)
    ensures Reachable(cfg, Pair(m, PARKED_NEVER, Full(2, m), multiset{Signal("a", Trigger, m)}, Idle, t), false)
  {
    var sig, back := Signal("b", Trigger, 0), multiset{Signal("a", Trigger, m)};
    TriggerLeavesNoTrace(cfg, t);
    LinkedReach(cfg,
      [Pair(0, PARKED_NEVER, Full(1, 0), multiset{sig}, Idle, t),
       Pair(0, PARKED_NEVER, Triggered(), multiset{}, Idle, t),
       Pair(0, PARKED_NEVER, Roused(), multiset{}, Idle, t)],
      [Deliver(sig), Wake("b")], false);
    BusyUntil(cfg, m, t);
    LinkedReach(cfg,
      [Pair(0, PARKED_NEVER, Roused(), multiset{}, Idle, t), Pair(m, PARKED_NEVER, Roused(), multiset{}, Idle, t)],
      [Elapse(m)], false);
    SignalsAndParks(cfg, m, t);
    LinkedReach(cfg,
      [Pair(m, PARKED_NEVER, Roused(), multiset{}, Idle, t), Pair(m, PARKED_NEVER, Roused(), back, Idle, t),
       Pair(m, PARKED_NEVER, Full(2, m), back, Idle, t)],
      [Send("b", "a", Trigger), Park("b")], false);
  }

  lemma FullSecondSweep(cfg: Config, m: nat, back: multiset<Signal>, t: Tracker)
    requires Reachable(cfg, Pair(m, PARKED_NEVER, Full(2, m), back, Idle, t), false)
    ensures Reachable(cfg, Pair(m, PARKED_NEVER, Full(2, m), back, Sampling(m, [], SawFullBoth(2)), t), false)
  {
    SecondDigestTaken(cfg, m, back, t);
    LinkedReach(cfg,
      [Pair(m, PARKED_NEVER, Full(2, m), back, Idle, t),
       Pair(m, PARKED_NEVER, Full(2, m), back, Started(m), t),
       Pair(m, PARKED_NEVER, Full(2, m), back, Sampling(m, ["b", "a"], []), t),
       Pair(m, PARKED_NEVER, Full(2, m), back, Sampling(m, ["a"], SawFull(2)), t),
       Pair(m, PARKED_NEVER, Full(2, m), back, Sampling(m, [], SawFullBoth(2)), t)],
      [BeginSweep, List(["b", "a"]), SampleNext, SampleNext], false);
  }

  /** The ceiling matters: once a counter is full a wake leaves no trace in the samples, and no margin helps. */
  lemma SaturatedCounterDefeatsEveryMargin(cfg: Config)
    ensures exists s :: Reachable(cfg, s, false) && RetiresNow(cfg, s) && !Dead(Apply(cfg, s, EndSweep))
  {
    var m, back := cfg.margin, multiset{Signal("a", Trigger, cfg.margin)};
    var t := Tracker(Some(0), Some(Digest(SawFullBoth(1))));
    FullFirstSweep(cfg, t);
    FullBetweenSweeps(cfg, m, t);
    FullSecondSweep(cfg, m, back, t);
    FullEntries(1);
    FullEntries(2);
    RepeatRetires(m, Digest(SawFullBoth(1)), SawFullBoth(2));
    var s := Pair(m, PARKED_NEVER, Full(2, m), back, Sampling(m, [], SawFullBoth(2)), t);
    FullMisfires(cfg, s);
  }

  lemma FullMisfires(cfg: Config, s: State)
    requires Reachable(cfg, s, false) && s.inflight != multiset{}
    requires s.sweep.Sampling? && s.sweep.todo == [] && s.sweep.got != []
    requires Next(s.tracker, cfg.margin, Sample(s.sweep.now, s.sweep.got)).1 == Retire
    ensures exists s :: Reachable(cfg, s, false) && RetiresNow(cfg, s) && !Dead(Apply(cfg, s, EndSweep))
  {
    assert Apply(cfg, s, EndSweep).inflight == s.inflight;
  }
}
