/** The agent's inbox: one channel in, a staging buffer, and drains sorted by class, each in arrival order. */
module Inbox {
  import opened Sorting

  datatype Trigger =
    | HumanOverride(op: string)
    | External(kind: string, payload: string)
    | ChildOutput(child: string, agentName: string, outputId: string)
    | ChildRetired(child: string, agentName: string, reason: string)
    | ScheduledWake

  function ClassPriority(t: Trigger): nat {
    match t
    case HumanOverride(_) => 0
    case External(_, _) => 1
    case ChildOutput(_, _, _) => 2
    case ChildRetired(_, _, _) => 2
    case ScheduledWake => 3
  }

  /** The classes of triggers: an operator's, the outside world's, a child's, the agent's own timer. */
  datatype Class = Operator | Outside | Child | Timer

  ghost function ClassOf(t: Trigger): Class {
    match t
    case HumanOverride(_) => Operator
    case External(_, _) => Outside
    case ChildOutput(_, _, _) => Child
    case ChildRetired(_, _, _) => Child
    case ScheduledWake => Timer
  }

  /** `a` is served before `b`: operators before all others, timers after all others, the outside before children. */
  ghost predicate Before(a: Class, b: Class) {
    match (a, b)
    case (Operator, other) => other != Operator
    case (other, Timer) => other != Timer
    case (Outside, Child) => true
    case _ => false
  }

  /** The ranks put the classes in that order and tell nothing else apart. */
  lemma RanksAreClasses(a: Trigger, b: Trigger)
    ensures ClassPriority(a) < ClassPriority(b) <==> Before(ClassOf(a), ClassOf(b))
    ensures ClassPriority(a) == ClassPriority(b) <==> ClassOf(a) == ClassOf(b)
  {
  }

  /** No trigger stands behind one of a class that is served later. */
  ghost predicate InServiceOrder(out: seq<Trigger>) {
    forall i, j :: 0 <= i < j < |out| ==> !Before(ClassOf(out[j]), ClassOf(out[i]))
  }

  predicate ClassLe(a: Trigger, b: Trigger) {
    ClassPriority(a) <= ClassPriority(b)
  }

  ghost function OfClass(s: seq<Trigger>, c: Class): seq<Trigger> {
    Filter(s, (t: Trigger) => ClassOf(t) == c)
  }

  function Concat(batches: seq<seq<Trigger>>): seq<Trigger> {
    if batches == [] then [] else Concat(batches[..|batches| - 1]) + batches[|batches| - 1]
  }

  lemma ConcatSnoc(batches: seq<seq<Trigger>>, batch: seq<Trigger>)
    ensures Concat(batches + [batch]) == Concat(batches) + batch
  {
    assert (batches + [batch])[..|batches|] == batches;
  }

  /** Sorting a drain puts more urgent classes first and leaves every class in arrival order. */
  lemma SortedDrain(out: seq<Trigger>)
    ensures InServiceOrder(Sort(out, ClassLe))
    ensures forall c :: OfClass(Sort(out, ClassLe), c) == OfClass(out, c)
  {
    var sorted := Sort(out, ClassLe);
    SortSorts(out, ClassLe);
    forall i, j | 0 <= i < j < |sorted| ensures !Before(ClassOf(sorted[j]), ClassOf(sorted[i])) {
      assert ClassLe(sorted[i], sorted[j]);
      RanksAreClasses(sorted[j], sorted[i]);
    }
    forall c ensures OfClass(Sort(out, ClassLe), c) == OfClass(out, c) {
      forall y, z | ClassOf(y) == c && ClassOf(z) == c ensures ClassLe(y, z) {
        RanksAreClasses(y, z);
      }
      SortStable(out, ClassLe, (t: Trigger) => ClassOf(t) == c);
    }
  }

  /** What was drained and what is still inside are the arrivals, class by class in order. */
  ghost predicate Conserves(arrived: seq<Trigger>, drains: seq<seq<Trigger>>, inside: seq<Trigger>) {
    && (forall c :: OfClass(Concat(drains), c) + OfClass(inside, c) == OfClass(arrived, c))
    && multiset(Concat(drains)) + multiset(inside) == multiset(arrived)
    && forall d :: d in drains ==> InServiceOrder(d)
  }

  lemma ArrivalConserves(arrived: seq<Trigger>, drains: seq<seq<Trigger>>, inside: seq<Trigger>, more: seq<Trigger>)
    requires Conserves(arrived, drains, inside)
    ensures Conserves(arrived + more, drains, inside + more)
  {
    forall c ensures OfClass(Concat(drains), c) + OfClass(inside + more, c) == OfClass(arrived + more, c) {
      var p := (t: Trigger) => ClassOf(t) == c;
      FilterConcat(inside, more, p);
      FilterConcat(arrived, more, p);
      assert OfClass(Concat(drains), c) + (OfClass(inside, c) + OfClass(more, c))
          == (OfClass(Concat(drains), c) + OfClass(inside, c)) + OfClass(more, c);
    }
  }

  lemma DrainConserves(arrived: seq<Trigger>, drains: seq<seq<Trigger>>, inside: seq<Trigger>)
    requires Conserves(arrived, drains, inside)
    ensures Conserves(arrived, drains + [Sort(inside, ClassLe)], [])
  {
    var out := Sort(inside, ClassLe);
    SortedDrain(inside);
    ConcatSnoc(drains, out);
    forall c ensures OfClass(Concat(drains + [out]), c) + OfClass([], c) == OfClass(arrived, c) {
      FilterConcat(Concat(drains), out, (t: Trigger) => ClassOf(t) == c);
      assert OfClass(out, c) == OfClass(inside, c);
      assert OfClass(Concat(drains), c) + OfClass(inside, c) + [] == OfClass(Concat(drains), c) + OfClass(inside, c);
    }
  }

  class TriggerQueue {
    var channel: seq<Trigger>
    var buffer: seq<Trigger>
    /** Every trigger ever sent, and every drain ever returned. */
    ghost var arrived: seq<Trigger>
    ghost var drains: seq<seq<Trigger>>

    ghost predicate Valid()
      reads this
    {
      Conserves(arrived, drains, buffer + channel)
    }

    constructor ()
      ensures Valid() && arrived == [] && drains == []
    {
      channel, buffer, arrived, drains := [], [], [], [];
    }

    /** A producer's send, and the loop's own push: both go through the channel. */
    method Send(t: Trigger)
      requires Valid()
      modifies `channel, `arrived
      ensures Valid() && arrived == old(arrived) + [t] && channel == old(channel) + [t]
    {
      ArrivalConserves(arrived, drains, buffer + channel, [t]);
      assert buffer + (channel + [t]) == buffer + channel + [t];
      channel := channel + [t];
      arrived := arrived + [t];
    }

    /** Answers whether a trigger is staged now; `false` is where the caller would still be waiting. */
    method WaitNonempty() returns (ready: bool)
      requires Valid()
      modifies `channel, `buffer
      ensures Valid() && buffer + channel == old(buffer + channel)
      ensures ready <==> old(buffer + channel) != []
      ensures ready ==> buffer != []
    {
      if buffer != [] {
        return true;
      }
      if channel == [] {
        return false;
      }
      assert buffer + channel == [channel[0]] + channel[1..];
      buffer, channel := [channel[0]], channel[1..];
      ready := true;
    }

    method DrainOrdered(incoming: seq<seq<Trigger>>) returns (out: seq<Trigger>)
      requires Valid()
      modifies this
      ensures Valid() && drains == old(drains) + [out]
      ensures buffer == [] && channel == [] && InServiceOrder(out)
      ensures exists k :: ArrivedFirst(arrived, old(arrived), incoming, k)
      ensures incoming == [] ==> arrived == old(arrived) && out == Sort(old(buffer + channel), ClassLe)
    {
      out := TakeAll(incoming);
      DrainConserves(arrived, drains, out);
      SortedDrain(out);
      out := Sort(out, ClassLe);
      drains := drains + [out];
      assert buffer + channel == [];
    }

    /** The `i`-th batch arrives at the end of the channel. */
    method Admit(
      incoming: seq<seq<Trigger>>, i: nat, ghost before: seq<Trigger>, ghost out: seq<Trigger>,
      ghost inside: seq<Trigger>)
      returns (ghost inside': seq<Trigger>)
      requires i < |incoming| && inside == out + channel
      requires Conserves(arrived, drains, inside) && ArrivedFirst(arrived, before, incoming, i)
      modifies `channel, `arrived
      ensures inside' == out + channel && Conserves(arrived, drains, inside')
      ensures ArrivedFirst(arrived, before, incoming, i + 1)
    {
      BatchArrives(arrived, drains, inside, out, channel, before, incoming, i);
      channel, arrived := channel + incoming[i], arrived + incoming[i];
      inside' := inside + incoming[i];
    }

    /** Triggers keep arriving while the channel is emptied: batch `i` just before the `i`-th look. */
    method TakeAll(incoming: seq<seq<Trigger>>) returns (out: seq<Trigger>)
      requires Valid()
      modifies `channel, `buffer, `arrived
      ensures buffer == [] && channel == [] && Conserves(arrived, drains, out)
      ensures exists k :: ArrivedFirst(arrived, old(arrived), incoming, k)
      ensures incoming == [] ==> arrived == old(arrived) && out == old(buffer + channel)
    {
      ghost var before, start := arrived, buffer + channel;
      ghost var inside := start;
      out := buffer;
      buffer := [];
      var i := 0;
      while true
        invariant i <= |incoming| && buffer == [] && ArrivedFirst(arrived, before, incoming, i)
        invariant inside == out + channel && Conserves(arrived, drains, inside)
        invariant incoming == [] ==> arrived == before && inside == start
        decreases |incoming| - i, |channel|
      {
        if i < |incoming| {
          inside := Admit(incoming, i, before, out, inside);
          i := i + 1;
        }
        if channel == [] {
          assert inside == out;
          return;
        }
        LeavesFirst(out, channel);
        out, channel := out + [channel[0]], channel[1..];
      }
    }
  }

  /** Beyond what was there before, exactly the first `k` batches have arrived. */
  ghost predicate ArrivedFirst(arrived: seq<Trigger>, before: seq<Trigger>, incoming: seq<seq<Trigger>>, k: nat) {
    k <= |incoming| && arrived == before + Concat(incoming[..k])
  }

  /** A batch that arrives while the channel is emptied joins its end. */
  lemma BatchArrives(
    arrived: seq<Trigger>, drains: seq<seq<Trigger>>, inside: seq<Trigger>, out: seq<Trigger>, channel: seq<Trigger>,
    before: seq<Trigger>, incoming: seq<seq<Trigger>>, i: nat)
    requires i < |incoming| && inside == out + channel
    requires Conserves(arrived, drains, inside) && ArrivedFirst(arrived, before, incoming, i)
    ensures inside + incoming[i] == out + (channel + incoming[i])
    ensures Conserves(arrived + incoming[i], drains, inside + incoming[i])
    ensures ArrivedFirst(arrived + incoming[i], before, incoming, i + 1)
  {
    ArrivalConserves(arrived, drains, inside, incoming[i]);
    ConcatAssoc(out, channel, incoming[i]);
    MoreArrive(arrived, before, incoming, i);
  }

  lemma MoreArrive(arrived: seq<Trigger>, before: seq<Trigger>, incoming: seq<seq<Trigger>>, k: nat)
    requires ArrivedFirst(arrived, before, incoming, k) && k < |incoming|
    ensures ArrivedFirst(arrived + incoming[k], before, incoming, k + 1)
  {
    CutAt(incoming, k);
    ConcatSnoc(incoming[..k], incoming[k]);
    ConcatAssoc(before, Concat(incoming[..k]), incoming[k]);
  }

  lemma LeavesFirst<T>(out: seq<T>, channel: seq<T>)
    requires channel != []
    ensures out + channel == out + [channel[0]] + channel[1..]
  {
  }
}
