/**
 The health record of an agent on disk: write-to-temporary-and-rename, so that a crash leaves one of two states, and
 an archive of past incidents whose file names have second precision.
 */
module Health {
  import opened Wrappers

  /** Nanoseconds on the clock; archive names keep whole seconds only. */
  type Time = int

  function StampOf(t: Time): int {
    t / 1_000_000_000
  }

  /** `t` lies in the whole second that begins `second` seconds after the epoch. */
  ghost predicate InSecond(t: Time, second: int) {
    second * 1_000_000_000 <= t < (second + 1) * 1_000_000_000
  }

  /** Two times share a slot of the archive exactly if they lie in one whole second. */
  lemma OneSlotIffOneSecond(t: Time, u: Time)
    ensures Archive(StampOf(t)) == Archive(StampOf(u)) <==> exists second :: InSecond(t, second) && InSecond(u, second)
  {
    assert InSecond(t, StampOf(t)) && InSecond(u, StampOf(u));
    forall second, time | InSecond(time, second) ensures second == StampOf(time) {
    }
  }

  const U32_MAX: nat := 0xFFFF_FFFF

  type U32 = n: nat | n <= 0xFFFF_FFFF

  const SCHEMA_VERSION: nat := 1

  datatype FailureKind = Inference | ToolCall

  datatype TrailEntry = TrailEntry(attempt: nat, at: Time, error: string)

  /** What the record says failed: a decision, a step the model got wrong, or a batch of calls, each with its tool. */
  datatype Details =
    | DecideDetails(error: string)
    | ApplyDetails(error: string)
    | BatchDetails(tool: string, error: string, failures: seq<(string, string)>)

  datatype Incident = Incident(
    kind: FailureKind, details: Details, retryTrail: seq<TrailEntry>, lastError: string, transitionedAt: Time)

  datatype HealthState = Healthy(since: Time) | Unhealthy(since: Time, incident: Incident)

  datatype HealthRecord = HealthRecord(version: nat, healthy: bool, since: Time, incident: Option<Incident>)

  /** A file is a whole record, or something that does not parse. */
  datatype Content = Whole(record: HealthRecord) | Torn

  datatype Path = Live | Archive(stamp: int) | Tmp(of: Path)

  type Files = map<Path, Content>

  datatype HealthError = BudgetExhausted(kind: FailureKind) | UnsupportedVersion(version: nat) | Serde

  /** What a present live file rehydrates to. */
  function Decode(c: Content): Result<HealthState, HealthError> {
    if c.Torn? then Err(Serde)
    else if c.record.version != SCHEMA_VERSION then Err(UnsupportedVersion(c.record.version))
    else if c.record.healthy then Ok(Healthy(c.record.since))
    else match c.record.incident
      case None => Err(Serde)
      case Some(incident) => Ok(Unhealthy(c.record.since, incident))
  }

  /** The state a restart on these files finds; `None` when there is no live file yet. */
  function Reopened(files: Files): Option<Result<HealthState, HealthError>> {
    if Live in files then Some(Decode(files[Live])) else None
  }

  /** The state a file is read as, or why it is refused: it does not parse, or has another version. */
  lemma ReadBackMeans(c: Content)
    ensures match Decode(c)
            case Ok(Healthy(since)) =>
              c.Whole? && c.record.version == SCHEMA_VERSION && c.record.healthy && c.record.since == since
            case Ok(Unhealthy(since, incident)) =>
              c == Whole(HealthRecord(SCHEMA_VERSION, false, since, Some(incident)))
            case Err(UnsupportedVersion(version)) => c.Whole? && c.record.version == version != SCHEMA_VERSION
            case Err(Serde) =>
              c.Torn? || (c.record.version == SCHEMA_VERSION && !c.record.healthy && c.record.incident.None?)
            case Err(BudgetExhausted(_)) => false
  {
  }

  /** Either state is read back as it was written. */
  lemma StatesReadBack(since: Time, incident: Incident)
    ensures Decode(HealthyContent(since)) == Ok(Healthy(since))
    ensures Decode(IncidentContent(incident)) == Ok(Unhealthy(incident.transitionedAt, incident))
  {
  }

  function HealthyContent(since: Time): Content {
    Whole(HealthRecord(SCHEMA_VERSION, true, since, None))
  }

  function IncidentContent(incident: Incident): Content {
    Whole(HealthRecord(SCHEMA_VERSION, false, incident.transitionedAt, Some(incident)))
  }

  // --- The points a crash can stop at ---------------------------------------------------------------------

  /** A half-written temporary, a whole one, and the rename. */
  function AtomicPoints(files: Files, path: Path, c: Content): (r: seq<Files>)
    ensures |r| == 3 && r[2] == (files - {Tmp(path)})[path := c]
  {
    [files[Tmp(path) := Torn], files[Tmp(path) := c], (files - {Tmp(path)})[path := c]]
  }

  function TransitionPoints(files: Files, incident: Incident): (r: seq<Files>)
    ensures |r| == 3
  {
    AtomicPoints(files, Live, IncidentContent(incident))
  }

  /** Recovery: the archive copy of the live file first, then the live file itself. */
  function RecoveryPoints(files: Files, incident: Incident, now: Time): (r: seq<Files>)
    requires Live in files
    ensures |r| == 6
  {
    var copied := AtomicPoints(files, Archive(StampOf(incident.transitionedAt)), files[Live]);
    copied + AtomicPoints(copied[2], Live, HealthyContent(now))
  }

  function SuccessPoints(files: Files, now: Time): seq<Files> {
    match Reopened(files)
    case Some(Ok(Unhealthy(_, incident))) => RecoveryPoints(files, incident, now)
    case _ => []
  }

  // --- The tracker ----------------------------------------------------------------------------------------

  class HealthTracker {
    const maxInference: U32
    const maxTool: U32
    var files: Files
    var state: HealthState
    var inferenceUsed: U32
    var toolUsed: U32
    /** Every state the files have been in, crash points included. */
    ghost var points: seq<Files>

    /** The live file is there and says what the tracker believes. */
    ghost predicate Valid()
      reads this
    {
      Reopened(files) == Some(Ok(state))
    }

    constructor (files: Files, state: HealthState, maxInference: U32, maxTool: U32)
      ensures this.files == files && this.state == state && inferenceUsed == 0 && toolUsed == 0 && points == []
      ensures this.maxInference == maxInference && this.maxTool == maxTool
    {
      this.maxInference, this.maxTool := maxInference, maxTool;
      this.files, this.state := files, state;
      inferenceUsed, toolUsed := 0, 0;
      points := [];
    }

    /** A present record is taken at its word or refused; an absent one is written as healthy since `now`. */
    static method Open(files: Files, maxInference: U32, maxTool: U32, now: Time)
      returns (r: Result<HealthTracker, HealthError>)
      ensures r.Ok? <==> Live !in files || Decode(files[Live]).Ok?
      ensures r.Err? ==> Decode(files[Live]) == Err(r.error)
      ensures r.Ok? ==> fresh(r.value) && r.value.Valid()
      ensures r.Ok? ==> r.value.maxInference == maxInference && r.value.maxTool == maxTool
      ensures r.Ok? && Live in files ==> r.value.files == files
      ensures r.Ok? && Live !in files ==>
        && r.value.state == Healthy(now) && r.value.points == AtomicPoints(files, Live, HealthyContent(now))
        && r.value.files == r.value.points[2]
    {
      var tracker := new HealthTracker(files, Healthy(now), maxInference, maxTool);
      if Live in files {
        var found := Decode(files[Live]);
        if found.Err? {
          return Err(found.error);
        }
        tracker.state := found.value;
      } else {
        tracker.AtomicWrite(Live, HealthyContent(now));
      }
      r := Ok(tracker);
    }

    /** The bytes land in a temporary, which may be seen half written, and a rename puts them in place. */
    method AtomicWrite(path: Path, c: Content)
      modifies this`files, this`points
      ensures points == old(points) + AtomicPoints(old(files), path, c)
      ensures files == (old(files) - {Tmp(path)})[path := c]
    {
      ghost var before := files;
      files := files[Tmp(path) := Torn];
      points := points + [files];
      files := files[Tmp(path) := c];
      points := points + [files];
      files := (files - {Tmp(path)})[path := c];
      points := points + [files];
      assert before[Tmp(path) := Torn][Tmp(path) := c] == before[Tmp(path) := c];
      assert (before[Tmp(path) := c] - {Tmp(path)})[path := c] == (before - {Tmp(path)})[path := c];
    }

    method BeginTick()
      modifies this`inferenceUsed, this`toolUsed
      ensures inferenceUsed == 0 && toolUsed == 0
    {
      inferenceUsed, toolUsed := 0, 0;
    }

    /** Spends one slot of the kind's allowance; the answer says whether the allowance is overspent. */
    method RecordFailure(kind: FailureKind) returns (exhausted: bool)
      modifies this`inferenceUsed, this`toolUsed
      ensures inferenceUsed == old(if kind == Inference then SatAdd(inferenceUsed) else inferenceUsed)
      ensures toolUsed == old(if kind == ToolCall then SatAdd(toolUsed) else toolUsed)
      ensures exhausted <==> if kind == Inference then inferenceUsed > maxInference else toolUsed > maxTool
    {
      match kind
      case Inference =>
        inferenceUsed := SatAdd(inferenceUsed);
        exhausted := inferenceUsed > maxInference;
      case ToolCall =>
        toolUsed := SatAdd(toolUsed);
        exhausted := toolUsed > maxTool;
    }

    /** A crash anywhere inside leaves the state before or the state after; the archive is not touched. */
    method TransitionToUnhealthy(incident: Incident)
      requires Valid()
      modifies this`files, this`state, this`points
      ensures Valid() && state == Unhealthy(incident.transitionedAt, incident)
      ensures points == old(points) + TransitionPoints(old(files), incident)
      ensures files == points[|points| - 1]
    {
      AtomicWrite(Live, IncidentContent(incident));
      state := Unhealthy(incident.transitionedAt, incident);
    }

    method MarkTickSuccess(now: Time)
      requires Valid()
      modifies this
      ensures Valid() && inferenceUsed == 0 && toolUsed == 0
      ensures state == if old(state).Unhealthy? then Healthy(now) else old(state)
      ensures points == old(points) + SuccessPoints(old(files), now)
      ensures files == if old(state).Unhealthy? then points[|points| - 1] else old(files)
    {
      if state.Unhealthy? {
        ArchiveCurrent(state.incident.transitionedAt);
        AtomicWrite(Live, HealthyContent(now));
        state := Healthy(now);
      }
      inferenceUsed, toolUsed := 0, 0;
    }

    method ArchiveCurrent(transitionedAt: Time)
      modifies this`files, this`points
      ensures Live in old(files) ==>
        points == old(points) + AtomicPoints(old(files), Archive(StampOf(transitionedAt)), old(files)[Live])
      ensures Live in old(files) ==>
        var slot := Archive(StampOf(transitionedAt));
        files == (old(files) - {Tmp(slot)})[slot := old(files)[Live]]
      ensures Live !in old(files) ==> files == old(files) && points == old(points)
    {
      if Live !in files {
        return;
      }
      AtomicWrite(Archive(StampOf(transitionedAt)), files[Live]);
    }
  }

  function SatAdd(n: U32): U32 {
    if n < U32_MAX then n + 1 else n
  }

  // --- Crash safety ---------------------------------------------------------------------------------------

  /** Every crash point of a failure reopens to the state before or after, with the archive as it was. */
  lemma TransitionIsAtomic(files: Files, incident: Incident, k: nat)
    requires Live in files && k < 3
    ensures var point := TransitionPoints(files, incident)[k];
      && (|| Reopened(point) == Reopened(files)
          || Reopened(point) == Some(Ok(Unhealthy(incident.transitionedAt, incident))))
      && (k == 2 ==> Reopened(point) == Some(Ok(Unhealthy(incident.transitionedAt, incident))))
      && forall stamp :: SlotAt(point, stamp) == SlotAt(files, stamp)
  {
  }

  function SlotAt(files: Files, stamp: int): Option<Content> {
    if Archive(stamp) in files then Some(files[Archive(stamp)]) else None
  }

  /** Every crash point of a recovery reopens unhealthy, or healthy with a byte copy of the incident in the archive. */
  lemma RecoveryIsAtomic(files: Files, now: Time, k: nat)
    requires Reopened(files).Some? && Reopened(files).value.Ok? && Reopened(files).value.value.Unhealthy? && k < 6
    ensures var before := Reopened(files).value.value;
      var point := SuccessPoints(files, now)[k];
      var slot := Archive(StampOf(before.incident.transitionedAt));
      && (Reopened(point) == Some(Ok(before)) || Reopened(point) == Some(Ok(Healthy(now))))
      && (Reopened(point) != Some(Ok(before)) ==> slot in point && point[slot] == files[Live])
      && (k == 5 ==> Reopened(point) == Some(Ok(Healthy(now))))
  {
  }

  // --- Runs with crashes ----------------------------------------------------------------------------------

  /** An operation that got as far as its `cut`-th file operation before the process died or finished. */
  datatype Event = Failed(incident: Incident, cut: nat) | Succeeded(now: Time, cut: nat)

  function PointsOf(files: Files, e: Event): seq<Files> {
    match e
    case Failed(incident, _) => TransitionPoints(files, incident)
    case Succeeded(now, _) => SuccessPoints(files, now)
  }

  function FilesAfter(files: Files, e: Event): Files {
    var points := PointsOf(files, e);
    var done := if e.cut <= |points| then e.cut else |points|;
    if done == 0 then files else points[done - 1]
  }

  /** The incident file an event moved into the archive, if it got that far. */
  function Archived(files: Files, e: Event): seq<Content> {
    if e.Succeeded? && SuccessPoints(files, e.now) != [] && e.cut >= 3 && Live in files then [files[Live]] else []
  }

  function RunFiles(files: Files, events: seq<Event>): Files
    decreases |events|
  {
    if events == [] then files else RunFiles(FilesAfter(files, events[0]), events[1..])
  }

  lemma {:induction false} RunFilesSnoc(files: Files, events: seq<Event>, e: Event)
    ensures RunFiles(files, events + [e]) == FilesAfter(RunFiles(files, events), e)
    decreases |events|
  {
    var all := events + [e];
    if events == [] {
      assert all[1..] == [];
    } else {
      assert all[1..] == events[1..] + [e];
      RunFilesSnoc(FilesAfter(files, events[0]), events[1..], e);
    }
  }

  function RunArchived(files: Files, events: seq<Event>): seq<Content>
    decreases |events|
  {
    if events == [] then [] else Archived(files, events[0]) + RunArchived(FilesAfter(files, events[0]), events[1..])
  }

  /** The events at which the live file went from an incident to healthy, by what was live then. */
  function RunRecovered(files: Files, events: seq<Event>): seq<Content>
    decreases |events|
  {
    if events == [] then []
    else
      var after := FilesAfter(files, events[0]);
      (if Live in files && Live in after && IsIncident(files[Live]) && !IsIncident(after[Live]) then [files[Live]]
        else [])
      + RunRecovered(after, events[1..])
  }

  predicate IsIncident(c: Content) {
    Decode(c).Ok? && Decode(c).value.Unhealthy?
  }

  function SlotOf(c: Content): Path
    requires IsIncident(c)
  {
    Archive(StampOf(Decode(c).value.incident.transitionedAt))
  }

  ghost predicate LiveIsSound(files: Files) {
    Live in files && Decode(files[Live]).Ok?
  }

  lemma EventKeepsLiveSound(files: Files, e: Event)
    requires LiveIsSound(files)
    ensures LiveIsSound(FilesAfter(files, e))
    ensures forall c :: c in Archived(files, e) ==> IsIncident(c)
  {
  }

  /** Archive slots change only where an event archived, and then to what it archived. */
  lemma EventMovesSlots(files: Files, e: Event, stamp: int)
    requires LiveIsSound(files)
    ensures SlotAt(FilesAfter(files, e), stamp) ==
      if Archived(files, e) != [] && SlotOf(Archived(files, e)[0]) == Archive(stamp) then Some(Archived(files, e)[0])
      else SlotAt(files, stamp)
  {
    EventKeepsLiveSound(files, e);
    assert forall c :: c in Archived(files, e) ==> c == files[Live];
  }

  lemma EventRecoversWhatItArchived(files: Files, e: Event)
    requires LiveIsSound(files) && IsIncident(files[Live]) && !IsIncident(FilesAfter(files, e)[Live])
    ensures Archived(files, e) == [files[Live]]
  {
  }

  /** Nothing recovers without being archived. */
  lemma {:induction false} RecoveredIsArchived(files: Files, events: seq<Event>)
    requires LiveIsSound(files)
    ensures forall c :: c in RunRecovered(files, events) ==> c in RunArchived(files, events)
    decreases |events|
  {
    if events != [] {
      var after := FilesAfter(files, events[0]);
      EventKeepsLiveSound(files, events[0]);
      RecoveredIsArchived(after, events[1..]);
      if IsIncident(files[Live]) && !IsIncident(after[Live]) {
        EventRecoversWhatItArchived(files, events[0]);
      }
    }
  }

  /** What the archive holds at a stamp after a run: the last thing archived there, or what was there before. */
  function LastAt(log: seq<Content>, slot: Path): Option<Content> {
    if log == [] then None
    else
      var last := log[|log| - 1];
      if IsIncident(last) && SlotOf(last) == slot then Some(last) else LastAt(log[..|log| - 1], slot)
  }

  lemma {:induction false} LastAtConcat(a: seq<Content>, b: seq<Content>, slot: Path)
    ensures LastAt(a + b, slot) == if LastAt(b, slot).Some? then LastAt(b, slot) else LastAt(a, slot)
    decreases |b|
  {
    if b == [] {
      assert a + b == a;
    } else {
      assert (a + b)[..|a + b| - 1] == a + b[..|b| - 1];
      LastAtConcat(a, b[..|b| - 1], slot);
    }
  }

  lemma {:induction false} ArchiveHoldsTheLast(files: Files, events: seq<Event>, stamp: int)
    requires LiveIsSound(files)
    ensures forall c :: c in RunArchived(files, events) ==> IsIncident(c)
    ensures var last := LastAt(RunArchived(files, events), Archive(stamp));
      SlotAt(RunFiles(files, events), stamp) == if last.Some? then last else SlotAt(files, stamp)
    decreases |events|
  {
    if events != [] {
      var after, log := FilesAfter(files, events[0]), Archived(files, events[0]);
      EventKeepsLiveSound(files, events[0]);
      EventMovesSlots(files, events[0], stamp);
      ArchiveHoldsTheLast(after, events[1..], stamp);
      LastAtConcat(log, RunArchived(after, events[1..]), Archive(stamp));
      if log != [] {
        assert log[..|log| - 1] == [];
      }
    }
  }

  ghost predicate Holds(files: Files, c: Content) {
    IsIncident(c) && SlotOf(c) in files && files[SlotOf(c)] == c
  }

  ghost predicate StampsTellApart(log: seq<Content>) {
    forall c, d :: c in log && d in log && IsIncident(c) && IsIncident(d) && SlotOf(c) == SlotOf(d) ==> c == d
  }

  lemma {:induction false} LastAtMember(log: seq<Content>, c: Content)
    requires c in log && IsIncident(c)
    ensures LastAt(log, SlotOf(c)).Some? && LastAt(log, SlotOf(c)).value in log
    ensures IsIncident(LastAt(log, SlotOf(c)).value) && SlotOf(LastAt(log, SlotOf(c)).value) == SlotOf(c)
  {
    var last := log[|log| - 1];
    if !(IsIncident(last) && SlotOf(last) == SlotOf(c)) {
      assert c in log[..|log| - 1];
      LastAtMember(log[..|log| - 1], c);
    }
  }

  /**
   Over every run, crashes included, the archive ends up with every incident ever moved to it exactly when no two
   different ones fall into the same second.
   */
  lemma ArchiveIsCompleteIffStampsDiffer(files: Files, events: seq<Event>)
    requires LiveIsSound(files)
    ensures var log := RunArchived(files, events);
      (forall c :: c in log ==> Holds(RunFiles(files, events), c)) <==> StampsTellApart(log)
  {
    var log := RunArchived(files, events);
    ArchiveHoldsTheLast(files, events, 0);
    if StampsTellApart(log) {
      forall c | c in log ensures Holds(RunFiles(files, events), c) {
        LastAtMember(log, c);
        ArchiveHoldsTheLast(files, events, SlotOf(c).stamp);
      }
    }
  }

  /** In particular every incident that was live at a recovery is then in the archive. */
  lemma RecoveredIncidentsAreKept(files: Files, events: seq<Event>)
    requires LiveIsSound(files) && StampsTellApart(RunArchived(files, events))
    ensures forall c :: c in RunRecovered(files, events) ==> Holds(RunFiles(files, events), c)
  {
    ArchiveIsCompleteIffStampsDiffer(files, events);
    RecoveredIsArchived(files, events);
  }

  /** Two incidents within one second: the second recovery overwrites the archive of the first. */
  lemma SameSecondLosesAnIncident()
    ensures
      var first := Incident(Inference, DecideDetails("a"), [], "a", 1);
      var second := Incident(Inference, DecideDetails("b"), [], "b", 2);
      var files := map[Live := HealthyContent(0)];
      var events := [Failed(first, 3), Succeeded(1, 6), Failed(second, 3), Succeeded(2, 6)];
      RunRecovered(files, events) == [IncidentContent(first), IncidentContent(second)]
      && !Holds(RunFiles(files, events), IncidentContent(first))
  {
    var first := Incident(Inference, DecideDetails("a"), [], "a", 1);
    var second := Incident(Inference, DecideDetails("b"), [], "b", 2);
    var f0: Files := map[Live := HealthyContent(0)];
    var events := [Failed(first, 3), Succeeded(1, 6), Failed(second, 3), Succeeded(2, 6)];
    var f1 := FilesAfter(f0, events[0]);
    assert f1 == map[Live := IncidentContent(first)];
    var f2 := FilesAfter(f1, events[1]);
    assert f2 == map[Live := HealthyContent(1), Archive(0) := IncidentContent(first)];
    var f3 := FilesAfter(f2, events[2]);
    assert f3 == map[Live := IncidentContent(second), Archive(0) := IncidentContent(first)];
    var f4 := FilesAfter(f3, events[3]);
    assert f4 == map[Live := HealthyContent(2), Archive(0) := IncidentContent(second)];
    var tail1, tail2, tail3 := events[1..], events[2..], events[3..];
    assert tail3 == [events[3]] && tail2 == [events[2]] + tail3 && tail1 == [events[1]] + tail2;
    OneEvent(f3, events[3], []);
    OneEvent(f2, events[2], tail3);
    OneEvent(f1, events[1], tail2);
    OneEvent(f0, events[0], tail1);
    assert [events[3]] + [] == tail3 && [events[0]] + tail1 == events;
  }

  lemma OneEvent(files: Files, e: Event, rest: seq<Event>)
    ensures RunFiles(files, [e] + rest) == RunFiles(FilesAfter(files, e), rest)
    ensures RunRecovered(files, [e] + rest) ==
      var after := FilesAfter(files, e);
      (if Live in files && Live in after && IsIncident(files[Live]) && !IsIncident(after[Live]) then [files[Live]]
        else [])
      + RunRecovered(after, rest)
  {
    assert ([e] + rest)[1..] == rest;
  }
}
