/**
 The debounced quiescence detector of one graph: what one sample says, what the detector remembers between
 samples, and the history property its two remembered fields stand for.
 */
module Quiescence {
  import opened Wrappers
  import opened Sorting

  type AgentId = string

  /** The fields of a workflow snapshot that the detector reads. */
  datatype Snapshot = Snapshot(
    isNever: bool, parked: bool, tick: nat,
    pendingTriggers: nat, pendingHumanOps: nat, pendingPatches: nat,
    triggersSeen: nat, humanOpsSeen: nat, patchesSeen: nat)

  datatype Observation = Observation(agent: AgentId, snapshot: Snapshot)

  /** A sweep's view of the graph at one monotonic time. */
  datatype Sample = Sample(now: nat, agents: seq<Observation>)

  datatype Verdict = Retire | Wait

  predicate AgentQuiescent(s: Snapshot) {
    && s.isNever
    && s.parked
    && s.tick >= 1
    && s.pendingTriggers == 0
    && s.pendingHumanOps == 0
    && s.pendingPatches == 0
  }

  /** The wake gate: a `never` agent arms its self-wake timer only before its first cycle. */
  predicate ArmSelfWake(isNever: bool, isFirstWake: bool) {
    !isNever || isFirstWake
  }

  /** What a snapshot shows of an agent that is asleep: it waits, nothing is queued for it, and no timer is armed. */
  ghost predicate Asleep(s: Snapshot) {
    && s.parked
    && s.pendingTriggers + s.pendingHumanOps + s.pendingPatches == 0
    && !ArmSelfWake(s.isNever, s.tick == 0)
  }

  /** The detector's test is exactly that the agent is asleep. */
  lemma QuiescentIsAsleep(s: Snapshot)
    ensures AgentQuiescent(s) <==> Asleep(s)
  {
  }

  ghost predicate AllAsleep(agents: seq<Observation>) {
    agents != [] && forall o :: o in agents ==> Asleep(o.snapshot)
  }

  predicate AllQuiescent(agents: seq<Observation>) {
    agents != [] && forall o :: o in agents ==> AgentQuiescent(o.snapshot)
  }

  // --- Digest ---------------------------------------------------------------------------------------------

  datatype Entry = Entry(agent: AgentId, triggers: nat, humanOps: nat, patches: nat)

  function EntryOf(o: Observation): Entry {
    Entry(o.agent, o.snapshot.triggersSeen, o.snapshot.humanOpsSeen, o.snapshot.patchesSeen)
  }

  function Entries(agents: seq<Observation>): seq<Entry> {
    if agents == [] then [] else [EntryOf(agents[0])] + Entries(agents[1..])
  }

  lemma {:induction false} EntriesMembers(agents: seq<Observation>)
    ensures forall e :: e in Entries(agents) <==> exists o :: o in agents && e == EntryOf(o)
  {
    if agents != [] {
      EntriesMembers(agents[1..]);
      assert forall o :: o in agents <==> o == agents[0] || o in agents[1..];
    }
  }

  /** Field-by-field comparison, as tuples compare. */
  predicate EntryLe(a: Entry, b: Entry) {
    if a.agent != b.agent then StrLe(a.agent, b.agent)
    else if a.triggers != b.triggers then a.triggers < b.triggers
    else if a.humanOps != b.humanOps then a.humanOps < b.humanOps
    else a.patches <= b.patches
  }

  lemma EntryLeIsTotalOrder()
    ensures TotalPreorder(EntryLe) && Antisymmetric(EntryLe)
  {
    StrLeIsTotalOrder();
    forall x: Entry, y: Entry, z: Entry | EntryLe(x, y) && EntryLe(y, z) ensures EntryLe(x, z) {
      assert StrLe(x.agent, y.agent) && StrLe(y.agent, z.agent);
    }
  }

  function Digest(agents: seq<Observation>): seq<Entry> {
    Sort(Entries(agents), EntryLe)
  }

  /** An agent with its three cumulative counters. */
  type Activity = (AgentId, nat, nat, nat)

  ghost function ActivityOf(o: Observation): Activity {
    (o.agent, o.snapshot.triggersSeen, o.snapshot.humanOpsSeen, o.snapshot.patchesSeen)
  }

  ghost function Activities(agents: seq<Observation>): seq<Activity> {
    Mapped(agents, ActivityOf)
  }

  /** The same agents with the same cumulative counters, whatever order they are listed in. */
  ghost predicate SameActivity(a: seq<Observation>, b: seq<Observation>) {
    multiset(Activities(a)) == multiset(Activities(b))
  }

  ghost function EntryAs(t: Activity): Entry {
    Entry(t.0, t.1, t.2, t.3)
  }

  ghost function Mapped<A, B>(s: seq<A>, f: A -> B): (r: seq<B>)
    ensures |r| == |s|
  {
    seq(|s|, i requires 0 <= i < |s| => f(s[i]))
  }

  /** Through a one-to-one map, lists have the same elements exactly when their images do. */
  lemma {:induction false} MappedCount<A(!new), B>(s: seq<A>, f: A -> B, x: A)
    requires forall y, z :: f(y) == f(z) ==> y == z
    ensures multiset(Mapped(s, f))[f(x)] == multiset(s)[x]
    ensures forall e :: e in Mapped(s, f) ==> exists y :: y in s && e == f(y)
  {
    if s != [] {
      MappedCount(s[1..], f, x);
      assert s == [s[0]] + s[1..];
      assert Mapped(s, f) == [f(s[0])] + Mapped(s[1..], f);
    }
  }

  lemma MappedSame<A(!new), B(!new)>(a: seq<A>, b: seq<A>, f: A -> B)
    requires forall y, z :: f(y) == f(z) ==> y == z
    ensures multiset(Mapped(a, f)) == multiset(Mapped(b, f)) <==> multiset(a) == multiset(b)
  {
    forall x ensures multiset(Mapped(a, f))[f(x)] == multiset(a)[x] && multiset(Mapped(b, f))[f(x)] == multiset(b)[x] {
      MappedCount(a, f, x);
      MappedCount(b, f, x);
    }
    if multiset(a) == multiset(b) {
      forall e ensures multiset(Mapped(a, f))[e] == multiset(Mapped(b, f))[e] {
        if y :| y in a + b && e == f(y) {
        } else {
          NotMapped(a, f, e);
          NotMapped(b, f, e);
        }
      }
    } else {
      var x :| multiset(a)[x] != multiset(b)[x];
      assert multiset(Mapped(a, f))[f(x)] != multiset(Mapped(b, f))[f(x)];
    }
  }

  lemma NotMapped<A(!new), B>(s: seq<A>, f: A -> B, e: B)
    requires forall y :: y in s ==> e != f(y)
    ensures multiset(Mapped(s, f))[e] == 0
  {
    assert forall i :: 0 <= i < |s| ==> Mapped(s, f)[i] == f(s[i]) && s[i] in s;
    assert e !in Mapped(s, f);
  }

  lemma {:induction false} EntriesAreMapped(agents: seq<Observation>)
    ensures Entries(agents) == Mapped(Activities(agents), EntryAs)
  {
    if agents != [] {
      EntriesAreMapped(agents[1..]);
      assert Activities(agents) == [ActivityOf(agents[0])] + Activities(agents[1..]);
      assert Mapped(Activities(agents), EntryAs) == [EntryOf(agents[0])] + Mapped(Activities(agents[1..]), EntryAs);
    }
  }

  /** The digests of two samples agree exactly when they show the same agents with the same cumulative counters. */
  lemma DigestIsOrderFree(a: seq<Observation>, b: seq<Observation>)
    ensures Digest(a) == Digest(b) <==> SameActivity(a, b)
  {
    EntryLeIsTotalOrder();
    SortEqIffSameElements(Entries(a), Entries(b), EntryLe);
    EntriesAreMapped(a);
    EntriesAreMapped(b);
    MappedSame(Activities(a), Activities(b), EntryAs);
  }

  // --- One step of the detector ---------------------------------------------------------------------------

  datatype Tracker = Tracker(stableSince: Option<nat>, lastDigest: Option<seq<Entry>>)

  const FRESH := Tracker(None, None)

  function SatSub(a: nat, b: nat): nat {
    if a >= b then a - b else 0
  }

  function Next(t: Tracker, margin: nat, s: Sample): (r: (Tracker, Verdict)) {
    if !AllQuiescent(s.agents) then (FRESH, Wait)
    else
      var current := Digest(s.agents);
      if t.lastDigest == Some(current) then
        var since := if t.stableSince.Some? then t.stableSince.value else s.now;
        (t.(stableSince := Some(since)), if SatSub(s.now, since) >= margin then Retire else Wait)
      else
        (Tracker(Some(s.now), Some(current)), Wait)
  }

  /** A visit by the reaper: without an observation the tracker is dropped, and so it is once it has fired. */
  function Visited(t: Tracker, margin: nat, now: nat, seen: Option<seq<Observation>>): (r: (Tracker, Verdict)) {
    match seen
    case None => (FRESH, Wait)
    case Some(agents) =>
      var (tracker, verdict) := Next(t, margin, Sample(now, agents));
      (if verdict == Retire then FRESH else tracker, verdict)
  }

  // --- What a history of samples says ---------------------------------------------------------------------

  /** Every sample from `i` on is quiescent and shows the activity sample `i` shows. */
  ghost predicate StableFrom(h: seq<Sample>, i: nat)
    requires i <= |h|
  {
    forall k :: i <= k < |h| ==> AllAsleep(h[k].agents) && SameActivity(h[i].agents, h[k].agents)
  }

  /** `i` begins the longest stable suffix. */
  ghost predicate IsStableStart(h: seq<Sample>, i: nat) {
    i < |h| && StableFrom(h, i) && (i == 0 || !StableFrom(h, i - 1))
  }

  /** From `start` to `end` the margin has passed; a clock that went backwards has not moved. */
  ghost predicate Spans(start: nat, end: nat, margin: nat) {
    start + margin <= end || margin == 0
  }

  /** The longest stable suffix has a repeat sample and spans the margin. */
  ghost predicate RetireDue(h: seq<Sample>, margin: nat) {
    exists i: nat :: IsStableStart(h, i) && i < |h| - 1 && Spans(h[i].now, h[|h| - 1].now, margin)
  }

  /** What the two remembered fields mean: the start and the activity of the longest stable suffix, if any. */
  ghost predicate Tracks(t: Tracker, h: seq<Sample>) {
    match t
    case Tracker(None, None) => h == [] || !AllQuiescent(h[|h| - 1].agents)
    case Tracker(Some(since), Some(digest)) =>
      exists i: nat :: IsStableStart(h, i) && since == h[i].now && digest == Digest(h[i].agents)
    case _ => false
  }

  lemma StableStartUnique(h: seq<Sample>, i: nat, j: nat)
    requires IsStableStart(h, i) && IsStableStart(h, j)
    ensures i == j
  {
    if i < j {
      assert StableFrom(h, j - 1) by { StableLater(h, i, j - 1); }
    } else if j < i {
      assert StableFrom(h, i - 1) by { StableLater(h, j, i - 1); }
    }
  }

  lemma StableLater(h: seq<Sample>, i: nat, j: nat)
    requires i <= j <= |h| && StableFrom(h, i)
    ensures StableFrom(h, j)
  {
  }

  /** One more sample keeps the remembered fields meaningful, and the verdict is exactly the history's. */
  lemma NextTracks(t: Tracker, margin: nat, h: seq<Sample>, s: Sample)
    requires Tracks(t, h)
    ensures Tracks(Next(t, margin, s).0, h + [s])
    ensures Next(t, margin, s).1 == Retire <==> RetireDue(h + [s], margin)
  {
    if !AllQuiescent(s.agents) {
      RestlessSample(h, s);
    } else if t.lastDigest == Some(Digest(s.agents)) {
      RepeatSample(t, margin, h, s);
    } else {
      StartAfresh(t, h, s);
      DueFrom(h, s, |h|, margin);
    }
  }

  lemma RepeatSample(t: Tracker, margin: nat, h: seq<Sample>, s: Sample)
    requires Tracks(t, h) && AllQuiescent(s.agents) && t.lastDigest == Some(Digest(s.agents))
    ensures Tracks(t, h + [s])
    ensures RetireDue(h + [s], margin) <==> SatSub(s.now, t.stableSince.value) >= margin
  {
    var i := RememberedStart(t, h);
    DigestIsOrderFree(h[i].agents, s.agents);
    ExtendStart(h, i, s);
    DueFrom(h, s, i, margin);
  }

  /** The start that the remembered digest and time stand for. */
  lemma RememberedStart(t: Tracker, h: seq<Sample>) returns (i: nat)
    requires Tracks(t, h) && t.lastDigest.Some?
    ensures IsStableStart(h, i) && t.stableSince == Some(h[i].now) && t.lastDigest == Some(Digest(h[i].agents))
  {
    i :| IsStableStart(h, i) && t.stableSince == Some(h[i].now) && t.lastDigest == Some(Digest(h[i].agents));
  }

  /** After a sample that is not quiescent no suffix is stable. */
  lemma RestlessSample(h: seq<Sample>, s: Sample)
    requires !AllQuiescent(s.agents)
    ensures forall i: nat :: !IsStableStart(h + [s], i)
    ensures !AllQuiescent((h + [s])[|h|].agents)
  {
    var h' := h + [s];
    assert h'[|h|] == s;
    forall i: nat | i < |h'| ensures !StableFrom(h', i) {
    }
  }

  /** With the longest stable suffix known, being due is a comparison. */
  lemma DueFrom(h: seq<Sample>, s: Sample, i: nat, margin: nat)
    requires IsStableStart(h + [s], i)
    ensures i <= |h| && (h + [s])[i] == (if i < |h| then h[i] else s)
    ensures RetireDue(h + [s], margin) <==> i < |h| && SatSub(s.now, h[i].now) >= margin
  {
    var h' := h + [s];
    assert h'[|h|] == s;
    forall j: nat | IsStableStart(h', j) ensures j == i {
      StableStartUnique(h', i, j);
    }
  }

  lemma ExtendStart(h: seq<Sample>, i: nat, s: Sample)
    requires IsStableStart(h, i) && AllQuiescent(s.agents) && SameActivity(h[i].agents, s.agents)
    ensures IsStableStart(h + [s], i)
  {
    var h' := h + [s];
    assert forall k :: 0 <= k < |h| ==> h'[k] == h[k];
    if i > 0 {
      StableInFront(h, i - 1, s);
    }
  }

  lemma StableInFront(h: seq<Sample>, i: nat, s: Sample)
    requires i < |h|
    ensures StableFrom(h + [s], i) ==> StableFrom(h, i)
  {
    assert forall k :: i <= k < |h| ==> (h + [s])[k] == h[k];
  }

  lemma StartAfresh(t: Tracker, h: seq<Sample>, s: Sample)
    requires Tracks(t, h) && AllQuiescent(s.agents) && t.lastDigest != Some(Digest(s.agents))
    ensures IsStableStart(h + [s], |h|)
  {
    var h' := h + [s];
    if |h| > 0 && StableFrom(h', |h| - 1) {
      assert h'[|h| - 1] == h[|h| - 1] && h'[|h|] == s;
      assert t.lastDigest.Some?;
      var i: nat :| IsStableStart(h, i) && t.lastDigest == Some(Digest(h[i].agents));
      assert SameActivity(h[i].agents, h[|h| - 1].agents);
      DigestIsOrderFree(h[i].agents, s.agents);
    }
  }

  // --- Replaying a history --------------------------------------------------------------------------------

  function Replay(h: seq<Sample>, margin: nat): (r: (Tracker, Verdict)) {
    if h == [] then (FRESH, Wait)
    else Next(Replay(h[..|h| - 1], margin).0, margin, h[|h| - 1])
  }

  /** Over every history, the last verdict is `Retire` exactly when the history calls for it. */
  lemma {:induction false} DebounceRefinesHistory(h: seq<Sample>, margin: nat)
    ensures Tracks(Replay(h, margin).0, h)
    ensures Replay(h, margin).1 == Retire <==> RetireDue(h, margin)
  {
    if h != [] {
      var before := h[..|h| - 1];
      DebounceRefinesHistory(before, margin);
      NextTracks(Replay(before, margin).0, margin, before, h[|h| - 1]);
      assert before + [h[|h| - 1]] == h;
    }
  }

  ghost predicate NonDecreasing(h: seq<Sample>) {
    forall i, j :: 0 <= i <= j < |h| ==> h[i].now <= h[j].now
  }

  lemma {:induction false} StartExists(h: seq<Sample>, i: nat) returns (j: nat)
    requires i < |h| && StableFrom(h, i)
    ensures j <= i && IsStableStart(h, j)
  {
    if i == 0 || !StableFrom(h, i - 1) {
      j := i;
    } else {
      j := StartExists(h, i - 1);
    }
  }

  lemma LongStretchIsDue(h: seq<Sample>, margin: nat, i: nat)
    requires NonDecreasing(h) && i < |h| - 1 && StableFrom(h, i) && h[|h| - 1].now - h[i].now >= margin
    ensures RetireDue(h, margin)
  {
    var j := StartExists(h, i);
    assert h[j].now <= h[i].now;
  }

  lemma DueIsALongStretch(h: seq<Sample>, margin: nat)
    requires NonDecreasing(h) && RetireDue(h, margin)
    ensures exists i: nat :: i < |h| - 1 && StableFrom(h, i) && h[|h| - 1].now - h[i].now >= margin
  {
    var i: nat :| IsStableStart(h, i) && i < |h| - 1 && SatSub(h[|h| - 1].now, h[i].now) >= margin;
    assert h[i].now <= h[|h| - 1].now;
  }

  /** With a monotone clock it fires at the first repeat sample at which some stable stretch spans the margin. */
  lemma FiresOnceTheWindowHasElapsed(h: seq<Sample>, margin: nat)
    requires NonDecreasing(h)
    ensures Replay(h, margin).1 == Retire <==>
            exists i: nat :: i < |h| - 1 && StableFrom(h, i) && h[|h| - 1].now - h[i].now >= margin
  {
    DebounceRefinesHistory(h, margin);
    if i: nat :| i < |h| - 1 && StableFrom(h, i) && h[|h| - 1].now - h[i].now >= margin {
      LongStretchIsDue(h, margin, i);
    }
    if RetireDue(h, margin) {
      DueIsALongStretch(h, margin);
    }
  }

  /** The listing order of the agents in a sample has no influence on the detector. */
  lemma ListingOrderIsIrrelevant(t: Tracker, margin: nat, now: nat, a: seq<Observation>, b: seq<Observation>)
    requires multiset(a) == multiset(b)
    ensures Next(t, margin, Sample(now, a)) == Next(t, margin, Sample(now, b))
  {
    PermutationKeepsImages(a, b, ActivityOf);
    DigestIsOrderFree(a, b);
    assert forall o :: o in a <==> o in multiset(a);
    assert forall o :: o in b <==> o in multiset(b);
    assert |a| == |multiset(a)| == |multiset(b)| == |b|;
  }

  lemma {:induction false} PermutationKeepsImages<A, B>(a: seq<A>, b: seq<A>, f: A -> B)
    requires multiset(a) == multiset(b)
    ensures multiset(Mapped(a, f)) == multiset(Mapped(b, f))
  {
    assert |a| == |multiset(a)| == |multiset(b)| == |b|;
    if a != [] {
      assert a[0] in multiset(b);
      var j :| 0 <= j < |b| && b[j] == a[0];
      var rest, others := Removed(a, 0), Removed(b, j);
      RemovedFacts(a, 0, f);
      RemovedFacts(b, j, f);
      PermutationKeepsImages(rest, others, f);
    }
  }

  ghost function Removed<A>(s: seq<A>, j: nat): (r: seq<A>)
    requires j < |s|
    ensures |r| == |s| - 1
  {
    s[..j] + s[j + 1..]
  }

  lemma RemovedFacts<A, B>(s: seq<A>, j: nat, f: A -> B)
    requires j < |s|
    ensures multiset(Removed(s, j)) == multiset(s) - multiset{s[j]}
    ensures multiset(Mapped(s, f)) == multiset(Mapped(Removed(s, j), f)) + multiset{f(s[j])}
  {
    TakeOut(s, j, s[..j], s[j + 1..]);
    MappedAround(s[..j], s[j], s[j + 1..], f);
  }

  lemma MappedAround<A, B>(front: seq<A>, x: A, back: seq<A>, f: A -> B)
    ensures multiset(Mapped(front + [x] + back, f)) == multiset(Mapped(front + back, f)) + multiset{f(x)}
  {
    assert Mapped(front + [x] + back, f) == Mapped(front, f) + [f(x)] + Mapped(back, f);
    assert Mapped(front + back, f) == Mapped(front, f) + Mapped(back, f);
  }

  lemma TakeOut<A>(b: seq<A>, j: nat, front: seq<A>, back: seq<A>)
    requires j < |b| && front == b[..j] && back == b[j + 1..]
    ensures b == front + [b[j]] + back && multiset(front + back) == multiset(b) - multiset{b[j]}
  {
    assert b == front + ([b[j]] + back);
  }

  // --- The detector ---------------------------------------------------------------------------------------

  class GraphQuiescence {
    const waveMargin: nat
    var stableSince: Option<nat>
    var lastDigest: Option<seq<Entry>>
    /** Every sample observed so far. */
    ghost var history: seq<Sample>

    ghost predicate Valid()
      reads this
    {
      Tracks(Tracker(stableSince, lastDigest), history)
    }

    constructor (waveMargin: nat)
      ensures Valid() && history == [] && this.waveMargin == waveMargin
    {
      this.waveMargin := waveMargin;
      stableSince, lastDigest := None, None;
      history := [];
    }

    method Observe(now: nat, agents: seq<Observation>) returns (verdict: Verdict)
      requires Valid()
      modifies this
      ensures Valid() && history == old(history) + [Sample(now, agents)]
      ensures verdict == Retire <==> RetireDue(history, waveMargin)
      ensures (Tracker(stableSince, lastDigest), verdict)
           == Next(old(Tracker(stableSince, lastDigest)), waveMargin, Sample(now, agents))
    {
      NextTracks(Tracker(stableSince, lastDigest), waveMargin, history, Sample(now, agents));
      verdict := Decide(now, agents);
      history := history + [Sample(now, agents)];
    }

    method Decide(now: nat, agents: seq<Observation>) returns (verdict: Verdict)
      modifies `stableSince, `lastDigest
      ensures (Tracker(stableSince, lastDigest), verdict)
           == Next(old(Tracker(stableSince, lastDigest)), waveMargin, Sample(now, agents))
    {
      if !AllQuiescent(agents) {
        Reset();
        return Wait;
      }
      var current := Digest(agents);
      if lastDigest == Some(current) {
        var since := if stableSince.Some? then stableSince.value else now;
        stableSince := Some(since);
        verdict := if SatSub(now, since) >= waveMargin then Retire else Wait;
      } else {
        lastDigest := Some(current);
        stableSince := Some(now);
        verdict := Wait;
      }
    }

    method Reset()
      modifies `stableSince, `lastDigest
      ensures stableSince == None && lastDigest == None
    {
      stableSince := None;
      lastDigest := None;
    }
  }
}
