/**
 The agent's two nested loops: cycles up to a cap, and inside each a loop of decide-and-step turns under a retry
 budget and a fuse. Deciding, stepping and waiting are inputs; what is modelled is what the loops make of them.
 */
module CycleLoop {
  import opened Wrappers
  import opened Health

  /** A cycle ends after this many steps at the latest. */
  const CYCLE_RUNAWAY_FUSE: nat := 50_000

  /** The number of cycles when the mandate names no cap. */
  const INTERIM_STEP_CAP: nat := 1_000_000

  datatype ToolFailure = ToolFailure(tool: string, error: string)

  datatype StepFailure = NeedsCorrection(desc: string) | ToolError(failures: seq<ToolFailure>)

  /** How one round of deciding and stepping came out. */
  datatype Turn =
    | DecideFailed(error: string)
    | IdleFor(delay: nat)
    | Stepped(failure: Option<StepFailure>)
    | StorageFault(error: string)

  // --- Failures of a cycle --------------------------------------------------------------------------------

  function InferenceIn(t: Turn): nat {
    if t.Stepped? && t.failure.Some? && t.failure.value.NeedsCorrection? then 1 else 0
  }

  function ToolsIn(t: Turn): nat {
    if t.Stepped? && t.failure.Some? && t.failure.value.ToolError? then |t.failure.value.failures| else 0
  }

  /** Failures of each kind among the first `n` turns. */
  function InferenceFailures(turns: nat -> Turn, n: nat): nat {
    if n == 0 then 0 else InferenceFailures(turns, n - 1) + InferenceIn(turns(n - 1))
  }

  function ToolFailures(turns: nat -> Turn, n: nat): nat {
    if n == 0 then 0 else ToolFailures(turns, n - 1) + ToolsIn(turns(n - 1))
  }

  /** The trail numbers its entries from one. */
  ghost predicate Numbered(trail: seq<TrailEntry>) {
    forall i :: 0 <= i < |trail| ==> trail[i].attempt == i + 1
  }

  /** `(len as u32) + 1`. */
  function NextAttempt(trail: seq<TrailEntry>): nat {
    |trail| % 0x1_0000_0000 + 1
  }

  function ErrorsOf(failure: StepFailure): seq<string> {
    match failure
    case NeedsCorrection(desc) => [desc]
    case ToolError(failures) => seq(|failures|, i requires 0 <= i < |failures| => failures[i].error)
  }

  /** Successive clock readings. */
  type Clock = nat -> Time

  /** `trail` is `before` plus one entry per error, in order, each at its own clock reading. */
  ghost predicate Extends(trail: seq<TrailEntry>, before: seq<TrailEntry>, errors: seq<string>, now: Clock) {
    && |trail| == |before| + |errors| && before <= trail
    && forall i :: 0 <= i < |errors| ==> trail[|before| + i].error == errors[i] && trail[|before| + i].at == now(i)
  }

  function LastOf(errors: seq<string>): string {
    if errors == [] then "" else errors[|errors| - 1]
  }

  /** The budget is overspent; an allowance at the counter's ceiling cannot be. */
  predicate Overspent(count: nat, allowance: U32) {
    count > allowance && allowance < U32_MAX
  }

  /** What a counter shows after `count` failures: slots stop being spent once the allowance is gone. */
  function Shown(count: nat, allowance: U32): nat {
    Min(count, Min(allowance + 1, U32_MAX))
  }

  /** What an incident says of the failure that spent the budget: for a batch, its first tool and every failure. */
  function DetailsOf(failure: StepFailure): Details {
    match failure
    case NeedsCorrection(desc) => ApplyDetails(desc)
    case ToolError(failures) =>
      BatchDetails(if failures == [] then "" else failures[0].tool, LastOf(ErrorsOf(failure)), Told(failures))
  }

  function Told(failures: seq<ToolFailure>): seq<(string, string)> {
    seq(|failures|, i requires 0 <= i < |failures| => (failures[i].tool, failures[i].error))
  }

  /** One more error at the end of a trail. */
  lemma ExtendsOneMore(trail: seq<TrailEntry>, before: seq<TrailEntry>, errors: seq<string>, i: nat, now: Clock)
    requires i < |errors| && Extends(trail, before, errors[..i], now)
    ensures var more := trail + [TrailEntry(NextAttempt(trail), now(i), errors[i])];
      && Extends(more, before, errors[..i + 1], now)
      && LastOf(errors[..i + 1]) == errors[i]
      && (Numbered(trail) && |more| <= U32_MAX ==> Numbered(more))
  {
    assert errors[..i + 1] == errors[..i] + [errors[i]];
  }

  /** A slot is spent for the `i`-th failure of a batch, unless the allowance is already overspent. */
  method SpendSlot(health: HealthTracker, exhausted: bool, ghost used: nat, ghost i: nat) returns (exhausted': bool)
    requires used <= health.maxTool ==>
      health.toolUsed == Shown(used + i, health.maxTool) && (exhausted <==> Overspent(used + i, health.maxTool))
    modifies health`inferenceUsed, health`toolUsed
    ensures health.inferenceUsed == old(health.inferenceUsed)
    ensures used <= health.maxTool ==>
      && health.toolUsed == Shown(used + i + 1, health.maxTool)
      && (exhausted' <==> Overspent(used + i + 1, health.maxTool))
  {
    exhausted' := exhausted;
    if !exhausted {
      exhausted' := health.RecordFailure(ToolCall);
    }
  }

  /** Every failure of a batch joins the trail, also those past the end of the budget. */
  method RecordBatch(health: HealthTracker, trail: seq<TrailEntry>, failures: seq<ToolFailure>, now: Clock)
    returns (trail': seq<TrailEntry>, exhausted: bool, lastError: string)
    modifies health`inferenceUsed, health`toolUsed
    ensures Extends(trail', trail, ErrorsOf(ToolError(failures)), now)
    ensures lastError == LastOf(ErrorsOf(ToolError(failures)))
    ensures Numbered(trail) && |trail'| <= U32_MAX ==> Numbered(trail')
    ensures health.inferenceUsed == old(health.inferenceUsed)
    ensures old(health.toolUsed) <= health.maxTool ==>
      && health.toolUsed == Shown(old(health.toolUsed) + |failures|, health.maxTool)
      && (exhausted <==> Overspent(old(health.toolUsed) + |failures|, health.maxTool))
  {
    trail', exhausted, lastError := trail, false, "";
    ghost var used, errors := health.toolUsed, ErrorsOf(ToolError(failures));
    for i := 0 to |failures|
      invariant Extends(trail', trail, errors[..i], now) && lastError == LastOf(errors[..i])
      invariant Numbered(trail) && |trail'| <= U32_MAX ==> Numbered(trail')
      invariant health.inferenceUsed == old(health.inferenceUsed)
      invariant used <= health.maxTool ==>
        health.toolUsed == Shown(used + i, health.maxTool) && (exhausted <==> Overspent(used + i, health.maxTool))
    {
      ExtendsOneMore(trail', trail, errors, i, now);
      trail' := trail' + [TrailEntry(NextAttempt(trail'), now(i), failures[i].error)];
      lastError := failures[i].error;
      exhausted := SpendSlot(health, exhausted, used, i);
    }
    assert errors[..|failures|] == errors;
  }

  method RecordCorrection(health: HealthTracker, trail: seq<TrailEntry>, desc: string, now: Clock)
    returns (trail': seq<TrailEntry>, exhausted: bool)
    modifies health`inferenceUsed, health`toolUsed
    ensures Extends(trail', trail, [desc], now)
    ensures Numbered(trail) && |trail'| <= U32_MAX ==> Numbered(trail')
    ensures health.toolUsed == old(health.toolUsed)
    ensures old(health.inferenceUsed) <= health.maxInference ==>
      && health.inferenceUsed == Shown(old(health.inferenceUsed) + 1, health.maxInference)
      && (exhausted <==> Overspent(old(health.inferenceUsed) + 1, health.maxInference))
  {
    trail' := trail + [TrailEntry(NextAttempt(trail), now(0), desc)];
    exhausted := health.RecordFailure(Inference);
  }

  /** The clock is read once for every failure and once more for an incident. */
  method RecordCycleFailure(health: HealthTracker, trail: seq<TrailEntry>, failure: StepFailure, now: Clock)
    returns (trail': seq<TrailEntry>, incident: Option<Incident>)
    modifies health`inferenceUsed, health`toolUsed
    ensures Extends(trail', trail, ErrorsOf(failure), now)
    ensures Numbered(trail) && |trail'| <= U32_MAX ==> Numbered(trail')
    ensures failure.NeedsCorrection? && old(health.inferenceUsed) <= health.maxInference ==>
      && health.toolUsed == old(health.toolUsed)
      && health.inferenceUsed == Shown(old(health.inferenceUsed) + 1, health.maxInference)
      && (incident.Some? <==> Overspent(old(health.inferenceUsed) + 1, health.maxInference))
    ensures failure.ToolError? && old(health.toolUsed) <= health.maxTool ==>
      && health.inferenceUsed == old(health.inferenceUsed)
      && health.toolUsed == Shown(old(health.toolUsed) + |failure.failures|, health.maxTool)
      && (incident.Some? <==> Overspent(old(health.toolUsed) + |failure.failures|, health.maxTool))
    ensures incident.Some? ==>
      && incident.value.retryTrail == trail' && incident.value.lastError == LastOf(ErrorsOf(failure))
      && incident.value.kind == (if failure.ToolError? then ToolCall else Inference)
      && incident.value.details == DetailsOf(failure) && incident.value.transitionedAt == now(|ErrorsOf(failure)|)
  {
    incident := None;
    match failure
    case NeedsCorrection(desc) =>
      var exhausted;
      trail', exhausted := RecordCorrection(health, trail, desc, now);
      if exhausted {
        incident := Some(Incident(Inference, ApplyDetails(desc), trail', desc, now(1)));
      }
    case ToolError(failures) =>
      var exhausted, lastError;
      trail', exhausted, lastError := RecordBatch(health, trail, failures, now);
      if exhausted {
        var firstTool := if failures == [] then "" else failures[0].tool;
        incident := Some(
          Incident(ToolCall, BatchDetails(firstTool, lastError, Told(failures)), trail', lastError, now(|failures|)));
      }
  }

  // --- One cycle ------------------------------------------------------------------------------------------

  datatype CycleEnd = Idled(delay: nat) | FuseBlown | BudgetSpent | Undecided | Faulted(error: string)

  /** The turn leaves the cycle running, budget permitting. */
  predicate Continues(t: Turn) {
    t.Stepped?
  }

  ghost predicate WithinBudget(turns: nat -> Turn, n: nat, maxInference: U32, maxTool: U32) {
    !Overspent(InferenceFailures(turns, n), maxInference) && !Overspent(ToolFailures(turns, n), maxTool)
  }

  lemma {:induction false} CountsGrow(turns: nat -> Turn, m: nat, n: nat)
    requires m <= n
    ensures InferenceFailures(turns, m) <= InferenceFailures(turns, n)
    ensures ToolFailures(turns, m) <= ToolFailures(turns, n)
  {
    if m < n {
      CountsGrow(turns, m, n - 1);
    }
  }

  /** How the cycle on these turns ends after `n` of them. */
  ghost predicate EndsAs(turns: nat -> Turn, n: nat, end: CycleEnd, maxInference: U32, maxTool: U32) {
    && 1 <= n <= CYCLE_RUNAWAY_FUSE
    && (forall i :: 0 <= i < n - 1 ==> Continues(turns(i)))
    && WithinBudget(turns, n - 1, maxInference, maxTool)
    && match end
       case Idled(delay) => turns(n - 1) == IdleFor(delay)
       case Undecided => turns(n - 1).DecideFailed?
       case Faulted(error) => turns(n - 1) == StorageFault(error)
       case BudgetSpent => Continues(turns(n - 1)) && !WithinBudget(turns, n, maxInference, maxTool)
       case FuseBlown =>
         n == CYCLE_RUNAWAY_FUSE && Continues(turns(n - 1)) && WithinBudget(turns, n, maxInference, maxTool)
  }

  lemma EndsHere(turns: nat -> Turn, m: nat, end: CycleEnd, maxInference: U32, maxTool: U32)
    requires m < CYCLE_RUNAWAY_FUSE && WithinBudget(turns, m, maxInference, maxTool)
    requires forall i :: 0 <= i < m ==> Continues(turns(i))
    requires match end
             case Idled(delay) => turns(m) == IdleFor(delay)
             case Undecided => turns(m).DecideFailed?
             case Faulted(error) => turns(m) == StorageFault(error)
             case BudgetSpent => Continues(turns(m)) && !WithinBudget(turns, m + 1, maxInference, maxTool)
             case FuseBlown =>
               m + 1 == CYCLE_RUNAWAY_FUSE && Continues(turns(m)) && WithinBudget(turns, m + 1, maxInference, maxTool)
    ensures EndsAs(turns, m + 1, end, maxInference, maxTool)
  {
  }

  /** A cycle as the world answers it: building the seed may hit a storage fault before the first decide call. */
  datatype CycleWorld = CycleWorld(seedFault: Option<string>, turns: nat -> Turn)

  /** How the cycle ends after `n` decide calls. */
  ghost predicate CycleEnds(cycle: CycleWorld, n: nat, end: CycleEnd, maxInference: U32, maxTool: U32) {
    match cycle.seedFault
    case Some(error) => n == 0 && end == Faulted(error)
    case None => EndsAs(cycle.turns, n, end, maxInference, maxTool)
  }

  lemma NoEarlierEnd(
    turns: nat -> Turn, m: nat, one: CycleEnd, n: nat, other: CycleEnd, maxInference: U32, maxTool: U32)
    requires EndsAs(turns, m, one, maxInference, maxTool) && EndsAs(turns, n, other, maxInference, maxTool)
    ensures n <= m
  {
    if m < n {
      CountsGrow(turns, m, n - 1);
    }
  }

  /** A cycle has one length and one end. */
  lemma EndIsUnique(
    cycle: CycleWorld, m: nat, one: CycleEnd, n: nat, other: CycleEnd, maxInference: U32, maxTool: U32)
    requires CycleEnds(cycle, m, one, maxInference, maxTool) && CycleEnds(cycle, n, other, maxInference, maxTool)
    ensures m == n && one == other
  {
    if cycle.seedFault.None? {
      NoEarlierEnd(cycle.turns, m, one, n, other, maxInference, maxTool);
      NoEarlierEnd(cycle.turns, n, other, m, one, maxInference, maxTool);
    }
  }

  /** A cycle that idles or runs into the fuse has kept both kinds of failure within their allowance. */
  lemma QuietEndsAreWithinBudget(cycle: CycleWorld, n: nat, end: CycleEnd, maxInference: U32, maxTool: U32)
    requires CycleEnds(cycle, n, end, maxInference, maxTool) && (end.Idled? || end.FuseBlown?)
    requires maxInference < U32_MAX && maxTool < U32_MAX
    ensures InferenceFailures(cycle.turns, n) <= maxInference && ToolFailures(cycle.turns, n) <= maxTool
  {
    var turns := cycle.turns;
    assert InferenceFailures(turns, n) == InferenceFailures(turns, n - 1) + InferenceIn(turns(n - 1));
    assert ToolFailures(turns, n) == ToolFailures(turns, n - 1) + ToolsIn(turns(n - 1));
  }

  /** What went wrong in a turn, in order. */
  function TurnErrors(t: Turn): seq<string> {
    match t
    case DecideFailed(error) => [error]
    case Stepped(Some(failure)) => ErrorsOf(failure)
    case _ => []
  }

  /** Errors with the clock readings they are recorded at. */
  ghost function Timed(errors: seq<string>, now: Clock): seq<(Time, string)> {
    seq(|errors|, i requires 0 <= i < |errors| => (now(i), errors[i]))
  }

  /** Everything that went wrong in the first `n` turns, in order. */
  ghost function Happenings(turns: nat -> Turn, clocks: nat -> Clock, n: nat): seq<(Time, string)> {
    if n == 0 then []
    else Happenings(turns, clocks, n - 1) + Timed(TurnErrors(turns(n - 1)), clocks(n - 1))
  }

  ghost function Recorded(trail: seq<TrailEntry>): seq<(Time, string)> {
    seq(|trail|, i requires 0 <= i < |trail| => (trail[i].at, trail[i].error))
  }

  /** The trail records exactly what went wrong so far, and numbers it if 32 bits suffice. */
  ghost predicate TrailTells(turns: nat -> Turn, clocks: nat -> Clock, n: nat, trail: seq<TrailEntry>) {
    && Recorded(trail) == Happenings(turns, clocks, n)
    && (|trail| <= U32_MAX ==> Numbered(trail))
  }

  lemma ExtendsRecords(trail: seq<TrailEntry>, before: seq<TrailEntry>, errors: seq<string>, now: Clock)
    requires Extends(trail, before, errors, now)
    ensures Recorded(trail) == Recorded(before) + Timed(errors, now)
  {
    assert forall i :: 0 <= i < |before| ==> trail[i] == before[i];
  }

  /** The trail has an entry for every failure, and one for a decision that failed. */
  lemma {:induction false} TrailCounts(turns: nat -> Turn, clocks: nat -> Clock, n: nat)
    requires forall i :: 0 <= i < n - 1 ==> Continues(turns(i))
    ensures |Happenings(turns, clocks, n)| == InferenceFailures(turns, n) + ToolFailures(turns, n)
                                              + (if n > 0 && turns(n - 1).DecideFailed? then 1 else 0)
  {
    if n > 0 {
      TrailCounts(turns, clocks, n - 1);
    }
  }

  /** The counters show the failures so far. */
  ghost predicate CountersShow(health: HealthTracker, turns: nat -> Turn, n: nat)
    reads health
  {
    && health.inferenceUsed == Shown(InferenceFailures(turns, n), health.maxInference)
    && health.toolUsed == Shown(ToolFailures(turns, n), health.maxTool)
  }

  /** The incident blames a kind of failure that did overspend its allowance. */
  ghost predicate BlamesOverspent(incident: Incident, turns: nat -> Turn, n: nat, maxInference: U32, maxTool: U32) {
    if incident.kind == ToolCall then Overspent(ToolFailures(turns, n), maxTool)
    else Overspent(InferenceFailures(turns, n), maxInference)
  }

  /** The incident says what failed in the turn that ended the cycle, and when that was recorded. */
  ghost predicate Explains(incident: Incident, t: Turn, now: Clock) {
    match t
    case DecideFailed(error) =>
      && incident.kind == Inference && incident.details == DecideDetails(error) && incident.lastError == error
      && incident.transitionedAt == now(1)
    case Stepped(Some(failure)) =>
      && incident.kind == (if failure.ToolError? then ToolCall else Inference)
      && incident.details == DetailsOf(failure) && incident.lastError == LastOf(ErrorsOf(failure))
      && incident.transitionedAt == now(|ErrorsOf(failure)|)
    case _ => false
  }

  /** There is an incident exactly when the cycle ends in one, and it tells the cycle's whole story. */
  ghost predicate IncidentFits(
    turns: nat -> Turn, clocks: nat -> Clock, n: nat, end: CycleEnd, incident: Option<Incident>,
    maxInference: U32, maxTool: U32)
    requires n > 0
  {
    && (incident.Some? <==> end.BudgetSpent? || end.Undecided?)
    && (incident.Some? ==>
         && TrailTells(turns, clocks, n, incident.value.retryTrail)
         && Explains(incident.value, turns(n - 1), clocks(n - 1)))
    && (end.BudgetSpent? ==> BlamesOverspent(incident.value, turns, n, maxInference, maxTool))
  }

  /** A failed decision joins the trail, and the incident says so. */
  lemma DecisionFails(
    turns: nat -> Turn, clocks: nat -> Clock, m: nat, trail: seq<TrailEntry>, error: string, incident: Incident,
    maxInference: U32, maxTool: U32)
    requires turns(m) == DecideFailed(error) && TrailTells(turns, clocks, m, trail)
    requires incident.retryTrail == trail + [TrailEntry(NextAttempt(trail), clocks(m)(0), error)]
    requires incident.kind == Inference && incident.details == DecideDetails(error) && incident.lastError == error
    requires incident.transitionedAt == clocks(m)(1)
    ensures IncidentFits(turns, clocks, m + 1, Undecided, Some(incident), maxInference, maxTool)
  {
    ExtendsRecords(incident.retryTrail, trail, [error], clocks(m));
  }

  /** Accounting for one step's failure decides exactly whether the cycle is over budget. */
  method Account(
    health: HealthTracker, turns: nat -> Turn, ghost clocks: nat -> Clock, ghost n: nat, trail: seq<TrailEntry>,
    failure: StepFailure, now: Clock)
    returns (trail': seq<TrailEntry>, incident: Option<Incident>)
    requires turns(n) == Stepped(Some(failure)) && now == clocks(n)
    requires WithinBudget(turns, n, health.maxInference, health.maxTool)
    requires CountersShow(health, turns, n) && TrailTells(turns, clocks, n, trail)
    modifies health`inferenceUsed, health`toolUsed
    ensures TrailTells(turns, clocks, n + 1, trail')
    ensures CountersShow(health, turns, n + 1)
    ensures incident.None? <==> WithinBudget(turns, n + 1, health.maxInference, health.maxTool)
    ensures incident.Some? ==>
      && incident.value.retryTrail == trail' && Explains(incident.value, turns(n), now)
      && BlamesOverspent(incident.value, turns, n + 1, health.maxInference, health.maxTool)
  {
    trail', incident := RecordCycleFailure(health, trail, failure, now);
    ExtendsRecords(trail', trail, ErrorsOf(failure), now);
    assert InferenceFailures(turns, n + 1) == InferenceFailures(turns, n) + InferenceIn(turns(n));
    assert ToolFailures(turns, n + 1) == ToolFailures(turns, n) + ToolsIn(turns(n));
  }

  lemma QuietTurn(turns: nat -> Turn, clocks: nat -> Clock, n: nat)
    requires !(turns(n).Stepped? && turns(n).failure.Some?)
    ensures !turns(n).DecideFailed? ==> Happenings(turns, clocks, n + 1) == Happenings(turns, clocks, n)
    ensures InferenceFailures(turns, n + 1) == InferenceFailures(turns, n)
    ensures ToolFailures(turns, n + 1) == ToolFailures(turns, n)
  {
  }

  /** A step without a failure changes no count and no trail. */
  method AccountStep(
    health: HealthTracker, turns: nat -> Turn, ghost clocks: nat -> Clock, ghost n: nat, trail: seq<TrailEntry>,
    failure: Option<StepFailure>, now: Clock)
    returns (trail': seq<TrailEntry>, incident: Option<Incident>)
    requires turns(n) == Stepped(failure) && now == clocks(n)
    requires WithinBudget(turns, n, health.maxInference, health.maxTool)
    requires CountersShow(health, turns, n) && TrailTells(turns, clocks, n, trail)
    modifies health`inferenceUsed, health`toolUsed
    ensures TrailTells(turns, clocks, n + 1, trail') && CountersShow(health, turns, n + 1)
    ensures incident.None? <==> WithinBudget(turns, n + 1, health.maxInference, health.maxTool)
    ensures incident.Some? ==>
      && incident.value.retryTrail == trail' && Explains(incident.value, turns(n), now)
      && BlamesOverspent(incident.value, turns, n + 1, health.maxInference, health.maxTool)
  {
    if failure.Some? {
      trail', incident := Account(health, turns, clocks, n, trail, failure.value, now);
    } else {
      QuietTurn(turns, clocks, n);
      trail', incident := trail, None;
    }
  }

  /** What a cycle leaves behind: the health record, its files, and how long to wait. */
  datatype Standing = Standing(health: HealthState, files: Files, wait: nat)

  /** How a cycle ended, how many turns it took, and how things stand then. */
  datatype Ended = Ended(end: CycleEnd, turns: nat, after: Standing)

  /**
   A cycle ended as the world made it. Idling recovers the health record; a spent budget or a failed decision makes
   it unhealthy with the cycle's incident; the fuse and a storage fault leave it as it was.
   */
  ghost predicate Moves(
    cycle: CycleWorld, clocks: nat -> Clock, now: Time, before: Standing, e: Ended, maxInference: U32, maxTool: U32)
  {
    && CycleEnds(cycle, e.turns, e.end, maxInference, maxTool)
    && e.after.wait == (if e.end.Idled? then e.end.delay else before.wait)
    && (e.end.Idled? ==>
        && e.after.health == (if before.health.Unhealthy? then Healthy(now) else before.health)
        && e.after.files == FilesAfter(before.files, Succeeded(now, 6)))
    && (e.end.FuseBlown? || e.end.Faulted? ==> e.after.health == before.health && e.after.files == before.files)
    && (e.end.BudgetSpent? || e.end.Undecided? ==>
        && e.after.health.Unhealthy? && e.after.health.since == e.after.health.incident.transitionedAt && e.turns > 0
        && e.after.files == FilesAfter(before.files, Failed(e.after.health.incident, 3))
        && IncidentFits(cycle.turns, clocks, e.turns, e.end, Some(e.after.health.incident), maxInference, maxTool))
  }

  /** How things stand before the `k`-th of these cycles. */
  function StandingBefore(first: Standing, cycles: seq<Ended>, k: nat): Standing
    requires k <= |cycles|
  {
    if k == 0 then first else cycles[k - 1].after
  }

  /** Every cycle moved things as the world made it; the `k`-th cycle is `world(k)`, counting from one. */
  ghost predicate CyclesFit(
    world: nat -> CycleWorld, clocks: nat -> (nat -> Clock), now: Clock, first: Standing, cycles: seq<Ended>,
    maxInference: U32, maxTool: U32)
  {
    forall k :: 0 <= k < |cycles| ==> CycleFits(world, clocks, now, first, cycles, k, maxInference, maxTool)
  }

  ghost predicate CycleFits(
    world: nat -> CycleWorld, clocks: nat -> (nat -> Clock), now: Clock, first: Standing, cycles: seq<Ended>, k: nat,
    maxInference: U32, maxTool: U32)
    requires k < |cycles|
  {
    Moves(world(k + 1), clocks(k + 1), now(k + 1), StandingBefore(first, cycles, k), cycles[k], maxInference, maxTool)
  }

  /** A cycle fits whatever comes after it. */
  lemma FitsAlike(
    world: nat -> CycleWorld, clocks: nat -> (nat -> Clock), now: Clock, first: Standing, cycles: seq<Ended>,
    other: seq<Ended>, k: nat, maxInference: U32, maxTool: U32)
    requires k < |cycles| && k < |other| && cycles[..k + 1] == other[..k + 1]
    requires CycleFits(world, clocks, now, first, cycles, k, maxInference, maxTool)
    ensures CycleFits(world, clocks, now, first, other, k, maxInference, maxTool)
  {
    assert cycles[k] == cycles[..k + 1][k] == other[k];
    assert k > 0 ==> cycles[k - 1] == cycles[..k + 1][k - 1] == other[k - 1];
  }

  ghost predicate NoFault(cycles: seq<Ended>) {
    forall k :: 0 <= k < |cycles| ==> !cycles[k].end.Faulted?
  }

  /** One more cycle. */
  lemma CyclesGrow(
    world: nat -> CycleWorld, clocks: nat -> (nat -> Clock), now: Clock, first: Standing, cycles: seq<Ended>,
    last: Ended, maxInference: U32, maxTool: U32)
    requires CyclesFit(world, clocks, now, first, cycles, maxInference, maxTool)
    requires var k := |cycles|;
      Moves(world(k + 1), clocks(k + 1), now(k + 1), StandingBefore(first, cycles, k), last, maxInference, maxTool)
    ensures CyclesFit(world, clocks, now, first, cycles + [last], maxInference, maxTool)
  {
    var more := cycles + [last];
    forall k | 0 <= k < |more| ensures CycleFits(world, clocks, now, first, more, k, maxInference, maxTool) {
      if k < |cycles| {
        assert more[..k + 1] == cycles[..k + 1];
        FitsAlike(world, clocks, now, first, cycles, more, k, maxInference, maxTool);
      } else {
        assert StandingBefore(first, more, k) == StandingBefore(first, cycles, k);
      }
    }
  }

  /** What the cycles did to the health files: a recovery for idling, a failure for an incident. */
  ghost function EventsOf(cycles: seq<Ended>, now: Clock): seq<Event> {
    if cycles == [] then []
    else
      var n := |cycles|;
      var last := cycles[n - 1];
      EventsOf(cycles[..n - 1], now)
      + (if last.end.Idled? then [Succeeded(now(n), 6)]
         else if (last.end.BudgetSpent? || last.end.Undecided?) && last.after.health.Unhealthy? then
           [Failed(last.after.health.incident, 3)]
         else [])
  }

  /** The files of a run are those of its events, so what is proved of the archive over events holds of runs. */
  lemma {:induction false} RunIsItsEvents(
    world: nat -> CycleWorld, clocks: nat -> (nat -> Clock), now: Clock, first: Standing, cycles: seq<Ended>,
    maxInference: U32, maxTool: U32)
    requires CyclesFit(world, clocks, now, first, cycles, maxInference, maxTool)
    ensures StandingBefore(first, cycles, |cycles|).files == RunFiles(first.files, EventsOf(cycles, now))
    decreases |cycles|
  {
    if cycles != [] {
      var n := |cycles| - 1;
      var front := cycles[..n];
      forall k | 0 <= k < n ensures CycleFits(world, clocks, now, first, front, k, maxInference, maxTool) {
        assert front[..k + 1] == cycles[..k + 1];
        FitsAlike(world, clocks, now, first, cycles, front, k, maxInference, maxTool);
      }
      RunIsItsEvents(world, clocks, now, first, front, maxInference, maxTool);
      var before := StandingBefore(first, cycles, n);
      assert before == StandingBefore(first, front, n);
      assert CycleFits(world, clocks, now, first, cycles, n, maxInference, maxTool);
      LastCycle(world(n + 1), clocks(n + 1), now(n + 1), before, cycles[n], EventsOf(front, now), first.files,
                maxInference, maxTool);
    }
  }

  lemma LastCycle(
    cycle: CycleWorld, clocks: nat -> Clock, now: Time, before: Standing, e: Ended, events: seq<Event>, files: Files,
    maxInference: U32, maxTool: U32)
    requires Moves(cycle, clocks, now, before, e, maxInference, maxTool)
    requires before.files == RunFiles(files, events)
    ensures e.after.files == RunFiles(files, events
      + (if e.end.Idled? then [Succeeded(now, 6)]
         else if (e.end.BudgetSpent? || e.end.Undecided?) && e.after.health.Unhealthy? then
           [Failed(e.after.health.incident, 3)]
         else []))
  {
    if e.end.Idled? {
      RunFilesSnoc(files, events, Succeeded(now, 6));
    } else if e.end.BudgetSpent? || e.end.Undecided? {
      RunFilesSnoc(files, events, Failed(e.after.health.incident, 3));
    } else {
      assert events + [] == events;
    }
  }

  /** Over every run of the agent: no incident recovers without having been archived. */
  lemma RunArchivesWhatRecovers(
    world: nat -> CycleWorld, clocks: nat -> (nat -> Clock), now: Clock, first: Standing, cycles: seq<Ended>,
    maxInference: U32, maxTool: U32)
    requires CyclesFit(world, clocks, now, first, cycles, maxInference, maxTool) && LiveIsSound(first.files)
    ensures var events, files := EventsOf(cycles, now), StandingBefore(first, cycles, |cycles|).files;
      && (forall c :: c in RunRecovered(first.files, events) ==> c in RunArchived(first.files, events))
      && ((forall c :: c in RunArchived(first.files, events) ==> Holds(files, c)) <==>
          StampsTellApart(RunArchived(first.files, events)))
  {
    RunIsItsEvents(world, clocks, now, first, cycles, maxInference, maxTool);
    RecoveredIsArchived(first.files, EventsOf(cycles, now));
    ArchiveIsCompleteIffStampsDiffer(first.files, EventsOf(cycles, now));
  }

  datatype RetireReason = StepCapReached(cap: nat)

  class Agent {
    const health: HealthTracker
    const stepCap: nat
    var tick: nat
    var nextAfter: nat
    var retirement: Option<RetireReason>
    /** Every cycle of the run, in order. */
    ghost var cycles: seq<Ended>
    /** Decide calls over the whole run. */
    ghost var decided: nat

    constructor (health: HealthTracker, stepCap: Option<nat>, idlePeriod: nat)
      ensures this.health == health && tick == 0 && retirement == None && decided == 0 && cycles == []
      ensures this.stepCap == if stepCap.Some? then stepCap.value else INTERIM_STEP_CAP
    {
      this.health := health;
      this.stepCap := if stepCap.Some? then stepCap.value else INTERIM_STEP_CAP;
      tick, nextAfter, retirement := 0, idlePeriod, None;
      decided, cycles := 0, [];
    }

    /** One round of the inner loop, after `m` steps: either it ends the cycle, or the cycle goes on. */
    method OneTurn(turns: nat -> Turn, clocks: nat -> Clock, m: nat, trail: seq<TrailEntry>)
      returns (end: Option<CycleEnd>, trail': seq<TrailEntry>, incident: Option<Incident>)
      requires m < CYCLE_RUNAWAY_FUSE && forall i :: 0 <= i < m ==> Continues(turns(i))
      requires WithinBudget(turns, m, health.maxInference, health.maxTool)
      requires CountersShow(health, turns, m) && TrailTells(turns, clocks, m, trail)
      modifies health`inferenceUsed, health`toolUsed
      ensures end.Some? ==> EndsAs(turns, m + 1, end.value, health.maxInference, health.maxTool)
      ensures end.Some? ==> IncidentFits(turns, clocks, m + 1, end.value, incident, health.maxInference, health.maxTool)
      ensures end.None? ==>
        && m + 1 < CYCLE_RUNAWAY_FUSE && Continues(turns(m)) && incident.None?
        && WithinBudget(turns, m + 1, health.maxInference, health.maxTool)
        && CountersShow(health, turns, m + 1) && TrailTells(turns, clocks, m + 1, trail')
    {
      end, trail', incident := None, trail, None;
      match turns(m) {
        case DecideFailed(error) =>
          var now := clocks(m);
          trail' := trail + [TrailEntry(NextAttempt(trail), now(0), error)];
          end, incident := Some(Undecided), Some(Incident(Inference, DecideDetails(error), trail', error, now(1)));
          DecisionFails(turns, clocks, m, trail, error, incident.value, health.maxInference, health.maxTool);
        case IdleFor(delay) =>
          end := Some(Idled(delay));
        case StorageFault(error) =>
          end := Some(Faulted(error));
        case Stepped(failure) =>
          trail', incident := AccountStep(health, turns, clocks, m, trail, failure, clocks(m));
          if incident.Some? {
            end := Some(BudgetSpent);
          } else if m + 1 >= CYCLE_RUNAWAY_FUSE {
            end := Some(FuseBlown);
          }
      }
      if end.Some? {
        EndsHere(turns, m, end.value, health.maxInference, health.maxTool);
      }
    }

    /** The inner loop: turns until one ends the cycle, and the incident if that end is one. */
    method Turns(turns: nat -> Turn, clocks: nat -> Clock)
      returns (end: CycleEnd, incident: Option<Incident>, ghost n: nat)
      requires health.inferenceUsed == 0 && health.toolUsed == 0
      modifies this`decided, health`inferenceUsed, health`toolUsed
      ensures EndsAs(turns, n, end, health.maxInference, health.maxTool)
      ensures decided == old(decided) + n
      ensures IncidentFits(turns, clocks, n, end, incident, health.maxInference, health.maxTool)
    {
      var trail: seq<TrailEntry> := [];
      var session := 0;
      n := 0;
      while true
        invariant session == n < CYCLE_RUNAWAY_FUSE && decided == old(decided) + n
        invariant forall i :: 0 <= i < n ==> Continues(turns(i))
        invariant WithinBudget(turns, n, health.maxInference, health.maxTool)
        invariant CountersShow(health, turns, n) && TrailTells(turns, clocks, n, trail)
        decreases CYCLE_RUNAWAY_FUSE - session
      {
        decided := decided + 1;
        var ended;
        ended, trail, incident := OneTurn(turns, clocks, session, trail);
        n := n + 1;
        if ended.Some? {
          return ended.value, incident, n;
        }
        session := session + 1;
      }
    }

    ghost function Stands(): Standing
      reads this, health
    {
      Standing(health.state, health.files, nextAfter)
    }

    /** One cycle, from a fresh budget to one of its ends. */
    method Cycle(cycle: CycleWorld, clocks: nat -> Clock, now: Time) returns (end: CycleEnd, ghost n: nat)
      requires health.Valid()
      modifies this`nextAfter, this`decided, health
      ensures health.Valid()
      ensures Moves(cycle, clocks, now, old(Stands()), Ended(end, n, Stands()), health.maxInference, health.maxTool)
      ensures decided == old(decided) + n
    {
      health.BeginTick();
      if cycle.seedFault.Some? {
        return Faulted(cycle.seedFault.value), 0;
      }
      var incident: Option<Incident>;
      end, incident, n := Turns(cycle.turns, clocks);
      if end.Idled? {
        nextAfter := end.delay;
        health.MarkTickSuccess(now);
      } else if incident.Some? {
        health.TransitionToUnhealthy(incident.value);
      }
    }

    /** What the run has done so far: `tick` cycles as the world made them, and no retirement. */
    ghost predicate Going(world: nat -> CycleWorld, clocks: nat -> (nat -> Clock), now: Clock, first: Standing)
      reads this, health
    {
      && health.Valid() && tick <= stepCap && decided <= tick * CYCLE_RUNAWAY_FUSE && retirement.None?
      && |cycles| == tick && CyclesFit(world, clocks, now, first, cycles, health.maxInference, health.maxTool)
      && Stands() == StandingBefore(first, cycles, tick)
    }

    /** The next cycle. */
    method NextCycle(
      world: nat -> CycleWorld, clocks: nat -> (nat -> Clock), now: Clock, ghost first: Standing)
      returns (end: CycleEnd)
      requires Going(world, clocks, now, first) && NoFault(cycles) && tick < stepCap
      modifies this, health
      ensures Going(world, clocks, now, first) && tick == old(tick) + 1
      ensures NoFault(cycles[..tick - 1]) && cycles[tick - 1].end == end
      ensures end.Faulted? <==> !NoFault(cycles)
    {
      ghost var before := cycles;
      tick := tick + 1;
      ghost var n;
      end, n := Cycle(world(tick), clocks(tick), now(tick));
      CycleIsShort(world(tick), n, end, health.maxInference, health.maxTool);
      ghost var last := Ended(end, n, Stands());
      CyclesGrow(world, clocks, now, first, before, last, health.maxInference, health.maxTool);
      cycles := before + [last];
      assert cycles[..tick - 1] == before && cycles[tick - 1] == last;
    }

    /**
     Cycles until the cap or a storage fault, which may also hit the retirement record; the `k`-th cycle is
     `world(k)`, and each starts from where the one before left things.
     */
    method Run(world: nat -> CycleWorld, clocks: nat -> (nat -> Clock), now: Clock, filing: Option<string>)
      returns (fault: Option<string>)
      requires health.Valid() && tick == 0 && decided == 0 && retirement == None && cycles == []
      modifies this, health
      ensures health.Valid()
      ensures tick <= stepCap && decided <= tick * CYCLE_RUNAWAY_FUSE
      ensures |cycles| == tick
      ensures CyclesFit(world, clocks, now, old(Stands()), cycles, health.maxInference, health.maxTool)
      ensures Stands() == StandingBefore(old(Stands()), cycles, tick)
      ensures NoFault(cycles) ==> tick == stepCap && fault == filing
      ensures !NoFault(cycles) ==>
        && tick > 0 && NoFault(cycles[..tick - 1])
        && cycles[tick - 1].end.Faulted? && fault == Some(cycles[tick - 1].end.error)
      ensures retirement == if fault.None? then Some(StepCapReached(stepCap)) else None
    {
      ghost var first := Stands();
      while true
        invariant Going(world, clocks, now, first) && NoFault(cycles)
        decreases stepCap - tick
      {
        if tick >= stepCap {
          if filing.None? {
            retirement := Some(StepCapReached(stepCap));
          }
          return filing;
        }
        var end := NextCycle(world, clocks, now, first);
        if end.Faulted? {
          return Some(end.error);
        }
      }
    }
  }

  lemma CycleIsShort(cycle: CycleWorld, n: nat, end: CycleEnd, maxInference: U32, maxTool: U32)
    requires CycleEnds(cycle, n, end, maxInference, maxTool)
    ensures n <= CYCLE_RUNAWAY_FUSE
  {
  }
}
