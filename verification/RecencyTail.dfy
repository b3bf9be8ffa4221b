/**
 The bounded recency index kept beside a directory: how one write or delete changes it, how it is rebuilt after a
 crash, and how far it agrees with the unbounded most-recent-first list and with the directory itself.
 */
module RecencyTail {
  import opened Wrappers
  import opened Sorting

  /** Entries beyond this many fall off the index. */
  const TAIL_K: nat := 64

  datatype TailEntry = TailEntry(filename: string, addedAt: int)

  function Names(es: seq<TailEntry>): seq<string> {
    seq(|es|, i requires 0 <= i < |es| => es[i].filename)
  }

  function Truncate<T>(s: seq<T>): seq<T> {
    if |s| > TAIL_K then s[..TAIL_K] else s
  }

  /** `retain(|e| e.filename != f)`. */
  function Without(es: seq<TailEntry>, f: string): seq<TailEntry> {
    Filter(es, (e: TailEntry) => e.filename != f)
  }

  function Appended(es: seq<TailEntry>, f: string, now: int): seq<TailEntry> {
    Truncate([TailEntry(f, now)] + Without(es, f))
  }

  // --- The unbounded list the index caches ----------------------------------------------------------------

  datatype NoteOp = Write(filename: string, at: int) | Delete(filename: string)

  function Dropped(l: seq<string>, f: string): seq<string> {
    Filter(l, (x: string) => x != f)
  }

  /** Most recently written first; a deleted name is gone. */
  function RecencyAfter(l: seq<string>, op: NoteOp): seq<string> {
    match op
    case Write(f, _) => [f] + Dropped(l, f)
    case Delete(f) => Dropped(l, f)
  }

  function TailAfter(es: seq<TailEntry>, op: NoteOp): seq<TailEntry> {
    match op
    case Write(f, at) => Appended(es, f, at)
    case Delete(f) => Without(es, f)
  }

  function RecencyRun(l: seq<string>, ops: seq<NoteOp>): seq<string>
    decreases |ops|
  {
    if ops == [] then l else RecencyRun(RecencyAfter(l, ops[0]), ops[1..])
  }

  function TailRun(es: seq<TailEntry>, ops: seq<NoteOp>): seq<TailEntry>
    decreases |ops|
  {
    if ops == [] then es else TailRun(TailAfter(es, ops[0]), ops[1..])
  }

  /** The index lists no name twice, is bounded, and is a prefix of the recency list. */
  ghost predicate Caches(es: seq<TailEntry>, l: seq<string>) {
    Distinct(l) && |es| <= TAIL_K && Names(es) <= l
  }

  /** It misses nothing that fits. */
  ghost predicate Exact(es: seq<TailEntry>, l: seq<string>) {
    Caches(es, l) && |es| == (if |l| <= TAIL_K then |l| else TAIL_K)
  }

  lemma {:induction false} DroppedFacts(l: seq<string>, f: string)
    ensures f !in Dropped(l, f) && forall x :: x in Dropped(l, f) <==> x in l && x != f
    ensures Distinct(l) ==> Distinct(Dropped(l, f)) && |Dropped(l, f)| == |l| - (if f in l then 1 else 0)
    ensures f !in l ==> Dropped(l, f) == l
  {
    if l != [] {
      DroppedFacts(l[1..], f);
      assert l == [l[0]] + l[1..];
      if Distinct(l) {
        assert Distinct(l[1..]);
        assert l[0] !in l[1..];
      }
    }
  }

  lemma {:induction false} NamesWithout(es: seq<TailEntry>, f: string)
    ensures Names(Without(es, f)) == Dropped(Names(es), f)
  {
    if es != [] {
      NamesWithout(es[1..], f);
      assert Names(es)[1..] == Names(es[1..]);
      assert Names(es) == [es[0].filename] + Names(es[1..]);
    }
  }

  lemma {:induction false} DroppedKeepsPrefix(p: seq<string>, l: seq<string>, f: string)
    requires p <= l
    ensures Dropped(p, f) <= Dropped(l, f)
  {
    FilterConcat(p, l[|p|..], (x: string) => x != f);
    assert l == p + l[|p|..];
  }

  lemma NamesAppended(es: seq<TailEntry>, f: string, now: int)
    ensures Names(Appended(es, f, now)) == Truncate([f] + Dropped(Names(es), f))
  {
    NamesWithout(es, f);
    NamesCons(TailEntry(f, now), Without(es, f));
  }

  lemma NamesCons(e: TailEntry, es: seq<TailEntry>)
    ensures Names([e] + es) == [e.filename] + Names(es)
    ensures Names(Truncate([e] + es)) == Truncate(Names([e] + es))
  {
  }

  lemma TailStep(es: seq<TailEntry>, l: seq<string>, op: NoteOp)
    requires Caches(es, l)
    ensures Caches(TailAfter(es, op), RecencyAfter(l, op))
  {
    var f := op.filename;
    DroppedFacts(l, f);
    DroppedFacts(Names(es), f);
    DroppedKeepsPrefix(Names(es), l, f);
    NamesWithout(es, f);
    if op.Write? {
      NamesAppended(es, f, op.at);
      var wide, full := [f] + Dropped(Names(es), f), RecencyAfter(l, op);
      assert full == [f] + Dropped(l, f);
      assert wide <= full;
      assert Truncate(wide) <= wide;
      assert |Appended(es, f, op.at)| == |Names(Appended(es, f, op.at))|;
      assert Distinct(full) by {
        assert f !in Dropped(l, f);
        forall i, j | 0 <= i < j < |full| ensures full[i] != full[j] {
          assert full[j] in Dropped(l, f);
        }
      }
    } else {
      assert Distinct(Names(es)) by {
        assert forall i :: 0 <= i < |Names(es)| ==> Names(es)[i] == l[i];
      }
      assert |Without(es, f)| == |Names(Without(es, f))|;
    }
  }

  /** Over every run the stored index is a bounded prefix, free of duplicates, of the unbounded recency list. */
  lemma {:induction false} TailCachesRecency(es: seq<TailEntry>, l: seq<string>, ops: seq<NoteOp>)
    requires Caches(es, l)
    ensures Caches(TailRun(es, ops), RecencyRun(l, ops))
    decreases |ops|
  {
    if ops != [] {
      TailStep(es, l, ops[0]);
      TailCachesRecency(TailAfter(es, ops[0]), RecencyAfter(l, ops[0]), ops[1..]);
    }
  }

  /** The one operation that makes an exact index inexact: a delete that hits a full index with overflow. */
  predicate DeletesFromOverflow(es: seq<TailEntry>, l: seq<string>, op: NoteOp) {
    op.Delete? && op.filename in Names(es) && |es| == TAIL_K && |l| > TAIL_K
  }

  lemma StepKeepsExact(es: seq<TailEntry>, l: seq<string>, op: NoteOp)
    requires Exact(es, l)
    ensures Exact(TailAfter(es, op), RecencyAfter(l, op)) <==> !DeletesFromOverflow(es, l, op)
  {
    var f := op.filename;
    TailStep(es, l, op);
    DroppedFacts(l, f);
    assert Distinct(Names(es)) by {
      assert forall i :: 0 <= i < |Names(es)| ==> Names(es)[i] == l[i];
    }
    DroppedFacts(Names(es), f);
    NamesWithout(es, f);
    assert |Without(es, f)| == |Names(Without(es, f))|;
    assert |l| <= TAIL_K ==> Names(es) == l;
    if op.Write? {
      NamesAppended(es, f, op.at);
      assert |Appended(es, f, op.at)| == |Names(Appended(es, f, op.at))|;
    }
  }

  ghost predicate NeverDeletesFromOverflow(es: seq<TailEntry>, l: seq<string>, ops: seq<NoteOp>)
    decreases |ops|
  {
    ops != [] ==>
      && !DeletesFromOverflow(es, l, ops[0])
      && NeverDeletesFromOverflow(TailAfter(es, ops[0]), RecencyAfter(l, ops[0]), ops[1..])
  }

  lemma {:induction false} ExactAlongRun(es: seq<TailEntry>, l: seq<string>, ops: seq<NoteOp>)
    requires Exact(es, l) && NeverDeletesFromOverflow(es, l, ops)
    ensures Exact(TailRun(es, ops), RecencyRun(l, ops))
    decreases |ops|
  {
    if ops != [] {
      StepKeepsExact(es, l, ops[0]);
      ExactAlongRun(TailAfter(es, ops[0]), RecencyAfter(l, ops[0]), ops[1..]);
    }
  }

  // --- Stale names ----------------------------------------------------------------------------------------

  /** The names that are on the recency list. */
  function LiveNames(names: seq<string>, l: seq<string>): seq<string> {
    Filter(names, (x: string) => x in l)
  }

  /** The index is bounded, repeats no name, and the names on it that have files are the newest files, in order. */
  ghost predicate LiveCaches(es: seq<TailEntry>, l: seq<string>) {
    Distinct(l) && Distinct(Names(es)) && |es| <= TAIL_K && LiveNames(Names(es), l) <= l
  }

  lemma {:induction false} FiltersAgree(s: seq<string>, p: string -> bool, q: string -> bool)
    requires forall x :: x in s ==> p(x) == q(x)
    ensures Filter(s, p) == Filter(s, q)
  {
    if s != [] {
      FiltersAgree(s[1..], p, q);
    }
  }

  lemma {:induction false} FilterTwice(s: seq<string>, p: string -> bool, q: string -> bool)
    ensures Filter(Filter(s, p), q) == Filter(s, (x: string) => p(x) && q(x))
  {
    if s != [] {
      var rest := Filter(s[1..], p);
      FilterTwice(s[1..], p, q);
      if p(s[0]) {
        FilterCons(s[0], rest, q);
      } else {
        assert [] + rest == rest;
      }
    }
  }

  lemma FiltersCommute(s: seq<string>, p: string -> bool, q: string -> bool)
    ensures Filter(Filter(s, p), q) == Filter(Filter(s, q), p)
  {
    FilterTwice(s, p, q);
    FilterTwice(s, q, p);
    FiltersAgree(s, (x: string) => p(x) && q(x), (x: string) => q(x) && p(x));
  }

  /** An index without a stale name is the special case. */
  lemma CachesLive(es: seq<TailEntry>, l: seq<string>)
    requires Caches(es, l)
    ensures LiveCaches(es, l)
  {
    var names := Names(es);
    assert forall i :: 0 <= i < |names| ==> names[i] == l[i];
    FilterAll(names, (x: string) => x in l);
  }

  /** Dropping a file drops its name among the live ones. */
  lemma DropLive(names: seq<string>, l: seq<string>, f: string)
    ensures LiveNames(Dropped(names, f), Dropped(l, f)) == Dropped(LiveNames(names, l), f)
    ensures LiveNames(names, Dropped(l, f)) == Dropped(LiveNames(names, l), f)
  {
    var live, kept, other := (x: string) => x in l, (x: string) => x in Dropped(l, f), (x: string) => x != f;
    DroppedFacts(l, f);
    DroppedFacts(names, f);
    FiltersAgree(Dropped(names, f), kept, live);
    FiltersCommute(names, other, live);
    FilterTwice(names, live, other);
    FiltersAgree(names, kept, (x: string) => live(x) && other(x));
  }

  lemma TruncateKeepsLive(names: seq<string>, l: seq<string>)
    requires LiveNames(names, l) <= l
    ensures LiveNames(Truncate(names), l) <= l
  {
    var kept := Truncate(names);
    FilterConcat(kept, names[|kept|..], (x: string) => x in l);
    assert names == kept + names[|kept|..];
  }

  /** Writing a file puts its name in front of the live ones, whether it was stale, live or absent. */
  lemma WriteLive(names: seq<string>, l: seq<string>, f: string)
    requires LiveNames(names, l) <= l
    ensures LiveNames([f] + Dropped(names, f), [f] + Dropped(l, f)) <= [f] + Dropped(l, f)
  {
    var after := [f] + Dropped(l, f);
    var live := (x: string) => x in after;
    assert f in after;
    FilterCons(f, Dropped(names, f), live);
    DroppedFacts(names, f);
    DroppedFacts(l, f);
    FiltersAgree(Dropped(names, f), live, (x: string) => x in Dropped(l, f));
    DropLive(names, l, f);
    DroppedKeepsPrefix(LiveNames(names, l), l, f);
  }

  lemma DistinctInFront(l: seq<string>, f: string)
    requires Distinct(l)
    ensures Distinct([f] + Dropped(l, f)) && Distinct(Truncate([f] + Dropped(l, f)))
  {
    DroppedFacts(l, f);
    var full := [f] + Dropped(l, f);
    forall i, j | 0 <= i < j < |full| ensures full[i] != full[j] {
      assert full[j] in Dropped(l, f);
    }
  }

  lemma LiveStep(es: seq<TailEntry>, l: seq<string>, op: NoteOp)
    requires LiveCaches(es, l)
    ensures LiveCaches(TailAfter(es, op), RecencyAfter(l, op))
  {
    var f, names := op.filename, Names(es);
    NamesWithout(es, f);
    DroppedFacts(names, f);
    DroppedFacts(l, f);
    if op.Write? {
      NamesAppended(es, f, op.at);
      DistinctInFront(names, f);
      DistinctInFront(l, f);
      WriteLive(names, l, f);
      TruncateKeepsLive([f] + Dropped(names, f), [f] + Dropped(l, f));
      assert |Appended(es, f, op.at)| == |Names(Appended(es, f, op.at))|;
    } else {
      DropLive(names, l, f);
      DroppedKeepsPrefix(LiveNames(names, l), l, f);
      assert |Without(es, f)| == |Names(Without(es, f))|;
    }
  }

  /** A step of a run whose deletes may be cut by a crash before the index is written. */
  datatype RunStep = Done(op: NoteOp) | CutDelete(filename: string)

  function TailOf(es: seq<TailEntry>, step: RunStep): seq<TailEntry> {
    match step
    case Done(op) => TailAfter(es, op)
    case CutDelete(_) => es
  }

  function RecencyBy(l: seq<string>, step: RunStep): seq<string> {
    match step
    case Done(op) => RecencyAfter(l, op)
    case CutDelete(f) => Dropped(l, f)
  }

  function CutTailRun(es: seq<TailEntry>, steps: seq<RunStep>): seq<TailEntry>
    decreases |steps|
  {
    if steps == [] then es else CutTailRun(TailOf(es, steps[0]), steps[1..])
  }

  function CutRecencyRun(l: seq<string>, steps: seq<RunStep>): seq<string>
    decreases |steps|
  {
    if steps == [] then l else CutRecencyRun(RecencyBy(l, steps[0]), steps[1..])
  }

  /** A delete that is cut before the index is written leaves a stale name and the order of the others. */
  lemma CutDeleteKeepsLive(es: seq<TailEntry>, l: seq<string>, f: string)
    requires LiveCaches(es, l)
    ensures LiveCaches(es, Dropped(l, f))
  {
    DroppedFacts(l, f);
    DropLive(Names(es), l, f);
    DroppedKeepsPrefix(LiveNames(Names(es), l), l, f);
  }

  /**
   A write that is cut before the index is written keeps the order exactly if the index names no file or names this
   one first: otherwise the file just written stands behind older ones, or is missing.
   */
  lemma CutWriteKeepsLiveIff(es: seq<TailEntry>, l: seq<string>, f: string)
    requires LiveCaches(es, l)
    ensures var after := [f] + Dropped(l, f);
      var live := LiveNames(Names(es), after);
      LiveCaches(es, after) <==> live == [] || live[0] == f
  {
    var names, after := Names(es), [f] + Dropped(l, f);
    var live := LiveNames(names, after);
    DistinctInFront(l, f);
    if live != [] && live[0] == f {
      CutDeleteKeepsLive(es, l, f);
      FilterKeeps(names, (x: string) => x in after);
      OthersAreLive(names, l, f);
      FrontAndOthers(live, f);
    }
  }

  /** Past the file just written the live names are those of the others. */
  lemma OthersAreLive(names: seq<string>, l: seq<string>, f: string)
    ensures Dropped(LiveNames(names, [f] + Dropped(l, f)), f) == LiveNames(names, Dropped(l, f))
  {
    var listed := (x: string) => x in [f] + Dropped(l, f);
    var other := (x: string) => x != f;
    DroppedFacts(l, f);
    FilterTwice(names, listed, other);
    FiltersAgree(names, (x: string) => listed(x) && other(x), (x: string) => x in Dropped(l, f));
  }

  lemma FrontAndOthers(l: seq<string>, f: string)
    requires Distinct(l) && l != [] && l[0] == f
    ensures l == [f] + Dropped(l, f)
  {
    var rest := l[1..];
    assert forall i :: 0 <= i < |rest| ==> rest[i] == l[i + 1];
    DroppedFacts(rest, f);
    assert Dropped(l, f) == [] + rest;
  }

  /**
   Over every run from any index without repeats, stale names and cut deletes included: the names on it that have
   files are, in order, the newest files.
   */
  lemma {:induction false} LiveNamesFollowRecency(es: seq<TailEntry>, l: seq<string>, steps: seq<RunStep>)
    requires LiveCaches(es, l)
    ensures LiveCaches(CutTailRun(es, steps), CutRecencyRun(l, steps))
    decreases |steps|
  {
    if steps != [] {
      match steps[0] {
        case Done(op) => LiveStep(es, l, op);
        case CutDelete(f) => CutDeleteKeepsLive(es, l, f);
      }
      LiveNamesFollowRecency(TailOf(es, steps[0]), RecencyBy(l, steps[0]), steps[1..]);
    }
  }

  // --- The seed's window ----------------------------------------------------------------------------------

  datatype Remainder = Nothing | Exactly(k: nat) | AtLeast(k: nat) {
    function Decremented(): Remainder {
      match this
      case Nothing => Nothing
      case Exactly(k) => if k <= 1 then Nothing else Exactly(k - 1)
      case AtLeast(k) => AtLeast(if k == 0 then 0 else k - 1)
    }

    /** The least number of further files the value claims. */
    function Floor(): nat {
      match this
      case Nothing => 0
      case Exactly(k) => k
      case AtLeast(k) => k
    }

    /** The claim, read literally, is true of `rest` further files. */
    predicate TrueOf(rest: int) {
      match this
      case Nothing => rest == 0
      case Exactly(k) => rest == k
      case AtLeast(k) => rest >= k
    }
  }

  datatype Window = Window(filenames: seq<string>, more: Remainder)

  /** The window read off a present, well-formed index. */
  function TailWindow(es: seq<TailEntry>, n: nat): Window {
    if n == 0 then Window([], Nothing)
    else
      var take := Min(|es|, n);
      var more :=
        if |es| == TAIL_K then AtLeast(TAIL_K - take)
        else if |es| - take == 0 then Nothing
        else Exactly(|es| - take);
      Window(Names(es)[..take], more)
  }

  /**
   The window shows the newest names, as many as are asked for and indexed. Its claim about the rest covers every
   further indexed name, and is never more than there is.
   */
  lemma WindowIsALowerBound(es: seq<TailEntry>, l: seq<string>, n: nat)
    requires Caches(es, l)
    ensures var w := TailWindow(es, n);
      && w.filenames <= l && |w.filenames| == Min(|es|, n) && w.more.Floor() <= |l| - |w.filenames|
      && (n > 0 ==> w.more.Floor() == |es| - |w.filenames|)
  {
  }

  /** Its claim about the rest is literally true exactly when the index is full or complete. */
  lemma WindowTruth(es: seq<TailEntry>, l: seq<string>, n: nat)
    requires Caches(es, l) && n > 0
    ensures var w := TailWindow(es, n);
      w.more.TrueOf(|l| - |w.filenames|) <==> |es| == TAIL_K || |es| == |l|
  {
  }

  /** Whatever stale names it shows, the files the window shows are the newest, in order. */
  lemma WindowShowsNewestFiles(es: seq<TailEntry>, l: seq<string>, n: nat)
    requires LiveCaches(es, l)
    ensures LiveNames(TailWindow(es, n).filenames, l) <= l
  {
    var shown := TailWindow(es, n).filenames;
    FilterConcat(shown, Names(es)[|shown|..], (x: string) => x in l);
    assert Names(es) == shown + Names(es)[|shown|..];
  }

  /** Pinning the standing note: put it first if it exists but is not listed, and count one file less. */
  function Pinned(w: Window, status: string, exists_: bool): Window {
    if status !in w.filenames && exists_ then Window([status] + w.filenames, w.more.Decremented()) else w
  }

  /**
   The seed lists the window's notes behind the pinned one, none twice. It never over-reports the rest, nor leaves
   an indexed note out of the count, and where the window's own claim is true so is the claim after pinning.
   */
  lemma PinKeepsCountsRight(es: seq<TailEntry>, l: seq<string>, n: nat, status: string)
    requires Caches(es, l) && n > 0
    ensures var w := Pinned(TailWindow(es, n), status, status in l);
      && Distinct(w.filenames) && (forall x :: x in w.filenames ==> x in l)
      && (status in l ==> status in w.filenames)
      && TailWindow(es, n).filenames == (if |w.filenames| > Min(|es|, n) then w.filenames[1..] else w.filenames)
      && w.more.Floor() <= |l| - |w.filenames|
      && w.more.Floor() == (if |es| > |w.filenames| then |es| - |w.filenames| else 0) && w.more != Exactly(0)
      && (|es| == TAIL_K || |es| == |l| ==> w.more.TrueOf(|l| - |w.filenames|))
  {
    var w := TailWindow(es, n);
    WindowIsALowerBound(es, l, n);
    WindowTruth(es, l, n);
    NewestFacts(l, w.filenames, status);
  }

  lemma NewestFacts(l: seq<string>, front: seq<string>, x: string)
    requires Distinct(l) && front <= l
    ensures Distinct(front) && forall y :: y in front ==> y in l
    ensures x in l && x !in front ==> |front| < |l| && Distinct([x] + front)
  {
    assert forall i :: 0 <= i < |front| ==> front[i] == l[i];
    assert |front| == |l| ==> front == l;
  }

  // --- Rebuilding after a crash ---------------------------------------------------------------------------

  /** `l` lists the set in ascending order. */
  ghost predicate Lists(l: seq<string>, names: set<string>) {
    SortedBy(l, StrLe) && Distinct(l) && forall x :: x in l <==> x in names
  }

  function AddedAt(es: seq<TailEntry>, f: string): Option<int> {
    if es == [] then None
    else if AddedAt(es[1..], f).Some? then AddedAt(es[1..], f)
    else if es[0].filename == f then Some(es[0].addedAt)
    else None
  }

  function Reverse<T>(s: seq<T>): seq<T> {
    seq(|s|, i requires 0 <= i < |s| => s[|s| - 1 - i])
  }

  /** The names kept by a rebuild: the greatest of the listing, greatest first. */
  function Chosen(listing: seq<string>): seq<string> {
    Reverse(listing[(if |listing| > TAIL_K then |listing| - TAIL_K else 0)..])
  }

  function Rebuilt(es: seq<TailEntry>, listing: seq<string>, now: int): seq<TailEntry> {
    var chosen := Chosen(listing);
    seq(|chosen|, i requires 0 <= i < |chosen| =>
      TailEntry(chosen[i], if AddedAt(es, chosen[i]).Some? then AddedAt(es, chosen[i]).value else now))
  }

  /** Reconciling an index with the directory listing: nothing to do if every file is indexed, else rebuild. */
  function Reconciled(es: seq<TailEntry>, listing: seq<string>, now: int): seq<TailEntry> {
    if forall f :: f in listing ==> f in Names(es) then es else Rebuilt(es, listing, now)
  }

  /** A sub-capacity index names every file on disk. */
  ghost predicate SubCapacityComplete(es: seq<TailEntry>, disk: set<string>) {
    |es| < TAIL_K ==> forall f :: f in disk ==> f in Names(es)
  }

  lemma ChosenNames(es: seq<TailEntry>, listing: seq<string>, now: int)
    ensures Names(Rebuilt(es, listing, now)) == Chosen(listing)
    ensures forall x :: x in Chosen(listing) ==> x in listing
    ensures |listing| <= TAIL_K ==> forall x :: x in listing ==> x in Chosen(listing)
  {
    if |listing| <= TAIL_K {
      forall x | x in listing ensures x in Chosen(listing) {
        var i :| 0 <= i < |listing| && listing[i] == x;
        assert Chosen(listing)[|listing| - 1 - i] == x;
      }
    }
  }

  /** The operation at `i` is on the file, and no later one is. */
  ghost predicate IsLastOn(ops: seq<NoteOp>, f: string, i: int) {
    0 <= i < |ops| && ops[i].filename == f && forall j :: i < j < |ops| ==> ops[j].filename != f
  }

  /** Every stamp is the time its file was last written; an entry as old as the run is of a file not touched since. */
  lemma {:induction false} StampIsLastWrite(es: seq<TailEntry>, ops: seq<NoteOp>, e: TailEntry)
    requires e in TailRun(es, ops)
    ensures
      || (exists i :: IsLastOn(ops, e.filename, i) && ops[i] == Write(e.filename, e.addedAt))
      || (e in es && forall op :: op in ops ==> op.filename != e.filename)
    decreases |ops|
  {
    if ops != [] {
      var rest := ops[1..];
      StampIsLastWrite(TailAfter(es, ops[0]), rest, e);
      if i :| IsLastOn(rest, e.filename, i) && rest[i] == Write(e.filename, e.addedAt) {
        LastOnOneLater(ops, e.filename, i);
      } else {
        StampAfterStep(es, ops[0], e);
        assert ops == [ops[0]] + rest;
        if ops[0] == Write(e.filename, e.addedAt) {
          assert IsLastOn(ops, e.filename, 0);
        }
      }
    }
  }

  lemma LastOnOneLater(ops: seq<NoteOp>, f: string, i: int)
    requires ops != [] && IsLastOn(ops[1..], f, i)
    ensures IsLastOn(ops, f, i + 1) && ops[i + 1] == ops[1..][i]
  {
    assert forall j :: 0 < j < |ops| ==> ops[j] == ops[1..][j - 1];
  }

  lemma StampAfterStep(es: seq<TailEntry>, op: NoteOp, e: TailEntry)
    requires e in TailAfter(es, op)
    ensures op == Write(e.filename, e.addedAt) || (e in es && op.filename != e.filename)
  {
    FilterKeeps(es, (x: TailEntry) => x.filename != op.filename);
  }

  /** From any index whatever, reconciling restores completeness below capacity. */
  lemma ReconcileRestoresCompleteness(es: seq<TailEntry>, listing: seq<string>, disk: set<string>, now: int)
    requires Lists(listing, disk)
    ensures SubCapacityComplete(Reconciled(es, listing, now), disk)
    ensures Distinct(Names(es)) ==> Distinct(Names(Reconciled(es, listing, now)))
    ensures |es| <= TAIL_K ==> |Reconciled(es, listing, now)| <= TAIL_K
    ensures (forall x :: x in Names(es) ==> x in disk) ==>
      forall x :: x in Names(Reconciled(es, listing, now)) ==> x in disk
  {
    ChosenNames(es, listing, now);
  }

  /** The last entry of its name. */
  ghost predicate IsLastOf(es: seq<TailEntry>, e: TailEntry) {
    exists i :: 0 <= i < |es| && es[i] == e && forall j :: i < j < |es| ==> es[j].filename != e.filename
  }

  lemma {:induction false} AddedAtIsLast(es: seq<TailEntry>, f: string)
    ensures if f in Names(es) then AddedAt(es, f).Some? && IsLastOf(es, TailEntry(f, AddedAt(es, f).value))
      else AddedAt(es, f).None?
  {
    if es != [] {
      assert Names(es) == [es[0].filename] + Names(es[1..]);
      AddedAtIsLast(es[1..], f);
      if f in Names(es[1..]) {
        var i :| 0 <= i < |es| - 1 && es[1..][i] == TailEntry(f, AddedAt(es, f).value)
                 && forall j :: i < j < |es| - 1 ==> es[1..][j].filename != f;
        assert es[i + 1] == es[1..][i];
        assert forall j :: i + 1 < j < |es| ==> es[j] == es[1..][j - 1];
      } else if es[0].filename == f {
        assert es[0] == TailEntry(f, AddedAt(es, f).value);
        assert forall j :: 0 < j < |es| ==> es[j].filename == Names(es[1..])[j - 1];
      }
    }
  }

  lemma AddedAtUnique(es: seq<TailEntry>, i: nat)
    requires i < |es| && Distinct(Names(es))
    ensures AddedAt(es, es[i].filename) == Some(es[i].addedAt)
  {
    var names, f := Names(es), es[i].filename;
    assert names[i] == f && names[i] in names;
    AddedAtIsLast(es, f);
    var j := LastAt(es, TailEntry(f, AddedAt(es, f).value));
    OnePlace(names, i, j);
  }

  lemma OnePlace(names: seq<string>, i: nat, j: nat)
    requires Distinct(names) && i < |names| && j < |names| && names[i] == names[j]
    ensures i == j
  {
  }

  lemma LastAt(es: seq<TailEntry>, e: TailEntry) returns (j: nat)
    requires IsLastOf(es, e)
    ensures j < |es| && es[j] == e && Names(es)[j] == e.filename
  {
    j :| 0 <= j < |es| && es[j] == e;
  }

  /** A name that a rebuild keeps keeps its last stamp, and a new one gets the time of the rebuild. */
  lemma RebuildKeepsStamps(es: seq<TailEntry>, listing: seq<string>, now: int, e: TailEntry)
    requires e in Rebuilt(es, listing, now)
    ensures if e.filename in Names(es) then IsLastOf(es, e) else e.addedAt == now
  {
    AddedAtIsLast(es, e.filename);
  }

  /**
   A rebuilt index lists the greatest names on disk, greatest first, as many as fit, with the stamps they had or
   else the time of the rebuild.
   */
  ghost predicate IsRebuilt(before: seq<TailEntry>, after: seq<TailEntry>, disk: set<string>, now: int) {
    && ShowsUpper(Names(after), disk)
    && |after| == Min(|disk|, TAIL_K)
    && forall e :: e in after ==> if e.filename in Names(before) then IsLastOf(before, e) else e.addedAt == now
  }

  /** Names on disk in descending order, none of them less than one left out. */
  ghost predicate ShowsUpper(names: seq<string>, disk: set<string>) {
    && Distinct(names) && (forall i, j :: 0 <= i < j < |names| ==> StrLe(names[j], names[i]))
    && ShowsGreatest(names, disk)
  }

  lemma RebuildIsGreatestFirst(es: seq<TailEntry>, listing: seq<string>, disk: set<string>, now: int)
    requires Lists(listing, disk)
    ensures IsRebuilt(es, Rebuilt(es, listing, now), disk, now)
  {
    ChosenNames(es, listing, now);
    ChosenIsUpper(listing, disk);
    DistinctCount(listing, disk);
    forall e | e in Rebuilt(es, listing, now)
      ensures if e.filename in Names(es) then IsLastOf(es, e) else e.addedAt == now
    {
      RebuildKeepsStamps(es, listing, now, e);
    }
  }

  lemma ChosenIsUpper(listing: seq<string>, disk: set<string>)
    requires Lists(listing, disk)
    ensures ShowsUpper(Chosen(listing), disk)
  {
    var names, n := Chosen(listing), |listing|;
    assert forall i :: 0 <= i < |names| ==> names[i] == listing[n - 1 - i];
    assert forall j :: n - |names| <= j < n ==> listing[j] == names[n - 1 - j];
    forall f, g | f in names && g in disk && g !in names ensures StrLe(g, f) {
      var i :| 0 <= i < |names| && names[i] == f;
      assert g in listing;
      var j :| 0 <= j < n && listing[j] == g;
      assert j < n - |names|;
    }
  }

  /** A second reconcile leaves every entry, timestamps included, as the first one left it. */
  lemma ReconcileIsIdempotent(es: seq<TailEntry>, listing: seq<string>, now: int, later: int)
    requires Distinct(listing)
    ensures Reconciled(Reconciled(es, listing, now), listing, later) == Reconciled(es, listing, now)
  {
    var once := Reconciled(es, listing, now);
    if !(forall f :: f in listing ==> f in Names(once)) {
      ChosenNames(es, listing, now);
      forall i | 0 <= i < |once| ensures AddedAt(once, Chosen(listing)[i]) == Some(once[i].addedAt) {
        AddedAtUnique(once, i);
      }
    }
  }

  /** Every later first write keeps a sub-capacity index complete, stale entries or not. */
  lemma WriteKeepsCompleteness(es: seq<TailEntry>, disk: set<string>, f: string, now: int)
    requires SubCapacityComplete(es, disk) && Distinct(Names(es)) && |es| <= TAIL_K
    ensures SubCapacityComplete(Appended(es, f, now), disk + {f})
    ensures Distinct(Names(Appended(es, f, now))) && |Appended(es, f, now)| <= TAIL_K
  {
    NamesAppended(es, f, now);
    DroppedFacts(Names(es), f);
    assert |Names(Appended(es, f, now))| == |Appended(es, f, now)|;
    var wide := [f] + Dropped(Names(es), f);
    forall i, j | 0 <= i < j < |wide| ensures wide[i] != wide[j] {
      assert wide[j] in Dropped(Names(es), f);
    }
  }

  /** A delete keeps it complete unless it empties a slot of a full index that overflow files are waiting for. */
  lemma DeleteKeepsCompleteness(es: seq<TailEntry>, disk: set<string>, f: string)
    requires SubCapacityComplete(es, disk) && Distinct(Names(es)) && |es| <= TAIL_K
    ensures SubCapacityComplete(Without(es, f), disk - {f})
       <==> !(|es| == TAIL_K && f in Names(es) && exists g :: g in disk && g !in Names(es))
  {
    NamesWithout(es, f);
    DroppedFacts(Names(es), f);
    assert |Names(Without(es, f))| == |Without(es, f)|;
  }

  // --- The two read paths ---------------------------------------------------------------------------------

  /** The last `n` of the ascending listing. */
  function ListRead(listing: seq<string>, n: nat): seq<string> {
    listing[(if |listing| > n then |listing| - n else 0)..]
  }

  /** The newest `n` indexed names in ascending order, those without a file dropped. */
  function TailRead(es: seq<TailEntry>, disk: set<string>, n: nat): seq<string> {
    Filter(Sort(Names(es)[..Min(|es|, n)], StrLe), (f: string) => f in disk)
  }

  lemma {:induction false} FilterSorted(s: seq<string>, p: string -> bool)
    requires SortedBy(s, StrLe) && Distinct(s)
    ensures SortedBy(Filter(s, p), StrLe) && Distinct(Filter(s, p))
    ensures forall x :: x in Filter(s, p) <==> x in s && p(x)
  {
    if s != [] {
      assert s == [s[0]] + s[1..];
      FilterSorted(s[1..], p);
      var r := Filter(s[1..], p);
      forall k | 0 <= k < |r| ensures StrLe(s[0], r[k]) && s[0] != r[k] {
        assert r[k] in s[1..];
      }
    }
  }

  lemma ListingUnique(a: seq<string>, b: seq<string>, names: set<string>)
    requires Lists(a, names) && Lists(b, names)
    ensures a == b
  {
    StrLeIsTotalOrder();
    DistinctByCount(a);
    DistinctByCount(b);
    forall x ensures multiset(a)[x] == multiset(b)[x] {
      assert x in a <==> x in multiset(a);
      assert x in b <==> x in multiset(b);
    }
    assert multiset(a) == multiset(b);
    SortedUnique(a, b, StrLe);
  }

  lemma TailReadLists(es: seq<TailEntry>, disk: set<string>, n: nat)
    requires Distinct(Names(es))
    ensures var shown := Names(es)[..Min(|es|, n)];
      Lists(TailRead(es, disk, n), set f | f in shown && f in disk)
  {
    var shown := Names(es)[..Min(|es|, n)];
    StrLeIsTotalOrder();
    SortSorts(shown, StrLe);
    SortMembers(shown, StrLe);
    SortKeepsDistinct(shown, StrLe);
    FilterSorted(Sort(shown, StrLe), (f: string) => f in disk);
  }

  /** Below capacity, a window that covers the index reads the same records by either path, crash leftovers or not. */
  lemma ReadPathsAgree(es: seq<TailEntry>, listing: seq<string>, disk: set<string>, n: nat)
    requires Lists(listing, disk) && Distinct(Names(es))
    requires SubCapacityComplete(es, disk) && |es| < TAIL_K && n >= |es|
    ensures TailRead(es, disk, n) == ListRead(listing, n)
  {
    TailReadLists(es, disk, n);
    assert Names(es)[..Min(|es|, n)] == Names(es);
    assert (set f | f in Names(es) && f in disk) == disk;
    ListingUnique(TailRead(es, disk, n), listing, disk);
    ListingNoLonger(listing, Names(es));
    assert listing[0..] == listing;
  }

  lemma {:induction false} ListingNoLonger(a: seq<string>, b: seq<string>)
    requires Distinct(a) && forall x :: x in a ==> x in b
    ensures |a| <= |b|
  {
    if a != [] {
      assert a[0] in b;
      var j :| 0 <= j < |b| && b[j] == a[0];
      var rest := b[..j] + b[j + 1..];
      forall x | x in a[1..] ensures x in rest {
        assert x in b && x != a[0];
      }
      ListingNoLonger(a[1..], rest);
    }
  }

  /** Every file on disk is among the names shown. */
  ghost predicate ShowsAll(shown: seq<string>, disk: set<string>) {
    forall f :: f in disk ==> f in shown
  }

  /** The names shown all have files, and come after every file that is not shown. */
  ghost predicate ShowsGreatest(shown: seq<string>, disk: set<string>) {
    && (forall f :: f in shown ==> f in disk)
    && (forall f, g :: f in shown && g in disk && g !in shown ==> StrLe(g, f))
  }

  /** `part` is taken from `l`, and each of its members comes after every member left out. */
  ghost predicate IsUpperPart(part: seq<string>, l: seq<string>) {
    && (forall x :: x in part ==> x in l)
    && (forall f, g :: f in part && g in l && g !in part ==> StrLe(g, f))
  }

  lemma UpperPartShrinks(part: seq<string>, l: seq<string>, x: string)
    requires IsUpperPart(part + [x], l + [x]) && Distinct(part + [x]) && Distinct(l + [x])
    ensures IsUpperPart(part, l)
  {
    var longer, all := part + [x], l + [x];
    assert longer[|part|] == x && all[|l|] == x;
    forall f | f in part ensures f in longer && f != x && f in l {
      var i :| 0 <= i < |part| && part[i] == f;
      assert longer[i] == f;
      assert f in all;
    }
    forall g | g in l ensures g in all && g != x {
      var i :| 0 <= i < |l| && l[i] == g;
      assert all[i] == g;
    }
    assert forall g :: g in longer <==> g in part || g == x;
  }

  /** A listing read shows the end of the order, ascending. */
  lemma ListReadIsUpperPart(l: seq<string>, n: nat)
    requires SortedBy(l, StrLe) && Distinct(l)
    ensures var part := ListRead(l, n);
      |part| == Min(|l|, n) && SortedBy(part, StrLe) && Distinct(part) && IsUpperPart(part, l)
  {
    var part, k := ListRead(l, n), |l| - Min(|l|, n);
    assert part == l[k..];
    assert forall j :: k <= j < |l| ==> l[j] == part[j - k];
    forall f, g | f in part && g in l && g !in part ensures StrLe(g, f) {
      var i :| 0 <= i < |part| && part[i] == f;
      var j :| 0 <= j < |l| && l[j] == g;
      assert j < k && l[k + i] == f;
    }
  }

  /** The upper part of a sorted list is the end of it. */
  lemma {:induction false} UpperPartIsLast(part: seq<string>, l: seq<string>)
    requires SortedBy(l, StrLe) && Distinct(l) && SortedBy(part, StrLe) && Distinct(part) && IsUpperPart(part, l)
    ensures |part| <= |l| && part == l[|l| - |part|..]
  {
    if part != [] {
      LastIsShared(part, l);
      var m, n := |part| - 1, |l| - 1;
      var part', l' := part[..m], l[..n];
      assert part == part' + [l[n]] && l == l' + [l[n]];
      UpperPartShrinks(part', l', l[n]);
      UpperPartIsLast(part', l');
      SuffixGrows(part', l', l[n]);
    }
  }

  lemma SuffixGrows(part: seq<string>, l: seq<string>, x: string)
    requires |part| <= |l| && part == l[|l| - |part|..]
    ensures part + [x] == (l + [x])[|l| - |part|..]
  {
  }

  lemma LastIsShared(part: seq<string>, l: seq<string>)
    requires SortedBy(l, StrLe) && SortedBy(part, StrLe) && part != [] && IsUpperPart(part, l)
    ensures l != [] && part[|part| - 1] == l[|l| - 1]
  {
    var top := part[|part| - 1];
    StrLeIsTotalOrder();
    assert top in l;
    var i :| 0 <= i < |l| && l[i] == top;
    var last := l[|l| - 1];
    assert StrLe(top, last);
    if last in part {
      var j :| 0 <= j < |part| && part[j] == last;
      assert StrLe(last, top);
    }
  }

  /** If the index read is the end of the listing and leaves a file out, every name shown was read. */
  lemma ReadIsFull(shown: seq<string>, read: seq<string>, listing: seq<string>, disk: set<string>, n: nat)
    requires Lists(listing, disk) && |shown| <= n && !ShowsAll(shown, disk)
    requires Lists(read, set f | f in shown && f in disk) && read == ListRead(listing, n)
    ensures |listing| > n && |read| == n && forall f :: f in shown ==> f in read
  {
    var out :| out in disk && out !in shown;
    assert out in listing && out !in read;
    assert listing[0..] == listing;
    ListingNoLonger(read, shown);
    DistinctSubsetIsAll(read, shown);
    assert forall f :: f in shown ==> f in multiset(read);
  }

  /** Then the names shown are those at the end. */
  lemma EndOfListingIsGreatest(shown: seq<string>, read: seq<string>, listing: seq<string>, disk: set<string>, n: nat)
    requires Lists(listing, disk) && |shown| <= n && !ShowsAll(shown, disk)
    requires Lists(read, set f | f in shown && f in disk) && read == ListRead(listing, n)
    ensures ShowsGreatest(shown, disk)
  {
    ReadIsFull(shown, read, listing, disk, n);
    var k := |listing| - n;
    assert forall m :: k <= m < |listing| ==> listing[m] == read[m - k];
    forall f, g | f in shown && g in disk && g !in shown ensures StrLe(g, f) {
      assert g in listing && g !in read && f in read;
      var i :| 0 <= i < |listing| && listing[i] == g;
      var j :| 0 <= j < |read| && read[j] == f;
      assert listing[k + j] == f;
    }
  }

  /**
   Below capacity, exactly when the two paths agree, stale entries included: every file is in the window, or the
   window holds no stale name and each of its names comes after every file it leaves out.
   */
  lemma ReadPathsAgreeIff(es: seq<TailEntry>, listing: seq<string>, disk: set<string>, n: nat)
    requires Lists(listing, disk) && Distinct(Names(es)) && |es| < TAIL_K && SubCapacityComplete(es, disk)
    ensures var shown := Names(es)[..Min(|es|, n)];
      TailRead(es, disk, n) == ListRead(listing, n) <==> ShowsAll(shown, disk) || ShowsGreatest(shown, disk)
  {
    var shown, read := Names(es)[..Min(|es|, n)], TailRead(es, disk, n);
    TailReadLists(es, disk, n);
    assert Distinct(shown);
    if ShowsAll(shown, disk) {
      assert (set f | f in shown && f in disk) == disk;
      ListingUnique(read, listing, disk);
      ListingNoLonger(listing, shown);
      assert listing[0..] == listing;
    } else if ShowsGreatest(shown, disk) {
      WindowIsFull(es, disk, n);
      UpperPartIsLast(read, listing);
      ListingNoLonger(shown, read);
      ListingNoLonger(read, shown);
    } else if read == ListRead(listing, n) {
      EndOfListingIsGreatest(shown, read, listing, disk, n);
    }
  }

  lemma WindowIsFull(es: seq<TailEntry>, disk: set<string>, n: nat)
    requires |es| < TAIL_K && SubCapacityComplete(es, disk)
    ensures n < |es| || ShowsAll(Names(es)[..Min(|es|, n)], disk)
  {
    if n >= |es| {
      assert Names(es)[..Min(|es|, n)] == Names(es);
    }
  }

  /** The index names exactly the files on disk, each once. */
  ghost predicate IndexOf(es: seq<TailEntry>, disk: set<string>) {
    Distinct(Names(es)) && forall f :: f in Names(es) <==> f in disk
  }

  /** For every directory and every window smaller than it there is a write order after which the paths differ. */
  lemma ReadPathsDifferOnSmallWindows(listing: seq<string>, disk: set<string>, n: nat) returns (es: seq<TailEntry>)
    requires Lists(listing, disk) && 0 < n < |listing| < TAIL_K
    ensures |es| == |listing| && IndexOf(es, disk)
    ensures TailRead(es, disk, n) != ListRead(listing, n)
  {
    es := seq(|listing|, i requires 0 <= i < |listing| => TailEntry(listing[i], 0));
    assert Names(es) == listing;
    var shown := listing[..n];
    ReadPathsAgreeIff(es, listing, disk, n);
    assert listing[n] in disk && listing[n] !in shown;
    assert listing[0] == shown[0] && listing[0] in shown;
    if StrLe(listing[n], listing[0]) {
      StrLeAntisymmetric(listing[0], listing[n]);
    }
  }

  /** Below capacity the two paths agree whatever the write order exactly when the window covers the directory. */
  lemma PathsAgreeForEveryOrderIff(listing: seq<string>, disk: set<string>, n: nat)
    requires Lists(listing, disk) && |listing| < TAIL_K && n > 0
    ensures (forall es :: |es| == |listing| && IndexOf(es, disk) ==> TailRead(es, disk, n) == ListRead(listing, n))
       <==> n >= |listing|
  {
    if n >= |listing| {
      forall es | |es| == |listing| && IndexOf(es, disk) ensures TailRead(es, disk, n) == ListRead(listing, n) {
        ReadPathsAgree(es, listing, disk, n);
      }
    } else {
      var es := ReadPathsDifferOnSmallWindows(listing, disk, n);
    }
  }

  // --- The window and the files on disk -------------------------------------------------------------------

  lemma {:induction false} DistinctCount(l: seq<string>, names: set<string>)
    requires Distinct(l) && forall x :: x in l <==> x in names
    ensures |l| == |names|
  {
    if l == [] {
      assert names == {};
    } else {
      assert l == [l[0]] + l[1..];
      forall x ensures x in l[1..] <==> x in names - {l[0]} {
        assert x in l <==> x == l[0] || x in l[1..];
      }
      DistinctCount(l[1..], names - {l[0]});
    }
  }

  /** The files that a window leaves out. */
  function Beyond(disk: set<string>, shown: seq<string>): set<string> {
    set f | f in disk && f !in shown
  }

  /** The names past the first `t` of the index that have no file. */
  function StalePast(es: seq<TailEntry>, disk: set<string>, t: nat): set<string>
    requires t <= |es|
  {
    set f | f in Names(es)[t..] && f !in disk
  }

  function Unindexed(es: seq<TailEntry>, disk: set<string>): set<string> {
    Beyond(disk, Names(es))
  }

  /** Past the window, files and stale names weigh up indexed names and unindexed files. */
  lemma RestOnDisk(es: seq<TailEntry>, disk: set<string>, t: nat)
    requires Distinct(Names(es)) && t <= |es|
    ensures |Beyond(disk, Names(es)[..t])| + |StalePast(es, disk, t)| == |es| - t + |Unindexed(es, disk)|
  {
    var names := Names(es);
    var shown, hidden := names[..t], names[t..];
    var present := set f | f in hidden && f in disk;
    assert names == shown + hidden;
    forall x | x in hidden ensures x !in shown {
      var i :| 0 <= i < |hidden| && hidden[i] == x;
      assert names[t + i] == x;
    }
    assert Beyond(disk, shown) == present + Unindexed(es, disk);
    assert present !! Unindexed(es, disk);
    assert present !! StalePast(es, disk, t);
    assert Distinct(hidden);
    DistinctCount(hidden, present + StalePast(es, disk, t));
  }

  /**
   For every index, stale names included, the window's claim about the rest is literally true exactly when the
   stale names past the window weigh up the unindexed files, or, of a full index, do not outnumber them; it
   over-reports exactly when they do.
   */
  lemma WindowTruthOnDisk(es: seq<TailEntry>, disk: set<string>, n: nat)
    requires Distinct(Names(es)) && n > 0
    ensures var w := TailWindow(es, n);
      var stale, unindexed := |StalePast(es, disk, |w.filenames|)|, |Unindexed(es, disk)|;
      && (w.more.TrueOf(|Beyond(disk, w.filenames)|) <==>
        if |es| == TAIL_K then stale <= unindexed else stale == unindexed)
      && (w.more.Floor() > |Beyond(disk, w.filenames)| <==> stale > unindexed)
  {
    RestOnDisk(es, disk, Min(|es|, n));
  }

  /** Of an index that is complete below capacity it is true exactly when no name past the window is stale. */
  lemma CompleteWindowTruth(es: seq<TailEntry>, disk: set<string>, n: nat)
    requires Distinct(Names(es)) && n > 0 && |es| < TAIL_K && SubCapacityComplete(es, disk)
    ensures var w := TailWindow(es, n);
      w.more.TrueOf(|Beyond(disk, w.filenames)|) <==> forall i :: |w.filenames| <= i < |es| ==> Names(es)[i] in disk
  {
    var t := Min(|es|, n);
    WindowTruthOnDisk(es, disk, n);
    assert Unindexed(es, disk) == {};
    forall i | t <= i < |es| ensures Names(es)[i] in disk <==> Names(es)[i] !in StalePast(es, disk, t) {
      assert Names(es)[t..][i - t] == Names(es)[i];
    }
    if StalePast(es, disk, t) != {} {
      var f :| f in StalePast(es, disk, t);
    }
  }

  /** Pinning the standing note neither spoils a true claim nor mends a false one, stale names or not. */
  lemma PinKeepsTruthOnDisk(es: seq<TailEntry>, disk: set<string>, n: nat, status: string)
    requires Distinct(Names(es)) && n > 0 && SubCapacityComplete(es, disk) && |es| <= TAIL_K
    ensures var w := TailWindow(es, n);
      var seen := Pinned(w, status, status in disk);
      seen.more.TrueOf(|Beyond(disk, seen.filenames)|) <==> w.more.TrueOf(|Beyond(disk, w.filenames)|)
  {
    var w := TailWindow(es, n);
    if status !in w.filenames && status in disk {
      assert Beyond(disk, [status] + w.filenames) == Beyond(disk, w.filenames) - {status};
      assert status in Beyond(disk, w.filenames);
      if n >= |es| {
        assert w.filenames == Names(es);
      }
    }
  }

  /** A stale name outlives a reconcile exactly when every file is indexed: otherwise the rebuild drops it. */
  lemma StaleOutlivesReconcileIff(es: seq<TailEntry>, listing: seq<string>, f: string, now: int)
    requires f in Names(es) && f !in listing
    ensures f in Names(Reconciled(es, listing, now)) <==> forall g :: g in listing ==> g in Names(es)
  {
    ChosenNames(es, listing, now);
  }

  /** It outlives an operation exactly when that is not on its own file and does not push it off a full index. */
  lemma StaleOutlivesStepIff(es: seq<TailEntry>, f: string, op: NoteOp)
    requires Distinct(Names(es)) && |es| <= TAIL_K && f in Names(es) && op.filename != f
    ensures f in Names(TailAfter(es, op))
       <==> !(op.Write? && |es| == TAIL_K && op.filename !in Names(es) && Names(es)[TAIL_K - 1] == f)
  {
    NamesWithout(es, op.filename);
    DroppedFacts(Names(es), op.filename);
    if op.Write? {
      NamesAppended(es, op.filename, op.at);
      StaysUnlessPushedOff(Names(es), f, op.filename);
    }
  }

  lemma StaysUnlessPushedOff(names: seq<string>, f: string, g: string)
    requires Distinct(names) && |names| <= TAIL_K && f in names && f != g
    ensures f in Truncate([g] + Dropped(names, g)) <==> !(|names| == TAIL_K && g !in names && names[TAIL_K - 1] == f)
  {
    var kept := Dropped(names, g);
    DroppedFacts(names, g);
    if |kept| == TAIL_K {
      assert kept == names && Truncate([g] + kept) == [g] + names[..TAIL_K - 1];
      LastOrBefore(names, f);
    } else {
      assert Truncate([g] + kept) == [g] + kept;
    }
  }

  lemma LastOrBefore(names: seq<string>, f: string)
    requires Distinct(names) && f in names
    ensures f in names[..|names| - 1] <==> names[|names| - 1] != f
  {
    var i :| 0 <= i < |names| && names[i] == f;
    if i < |names| - 1 {
      assert names[..|names| - 1][i] == f;
    }
  }

  /**
   A crash after the note is deleted and before the index is: the next reconcile leaves the stale name exactly if
   no file has fallen off the index, and the count is right exactly if the name is in the window or some file has.
   */
  lemma CrashedDelete(
    es: seq<TailEntry>, l: seq<string>, f: string, listing: seq<string>, disk: set<string>, n: nat, now: int)
    requires Exact(es, l) && f in Names(es) && n > 0
    requires Lists(listing, disk) && forall g :: g in disk <==> g in l && g != f
    ensures f in Names(Reconciled(es, listing, now)) <==> |l| <= TAIL_K
    ensures var w := TailWindow(es, n);
      w.more.TrueOf(|Beyond(disk, w.filenames)|) <==> f in w.filenames || |l| > TAIL_K
  {
    var names, t := Names(es), Min(|es|, n);
    assert forall i :: 0 <= i < |names| ==> names[i] == l[i];
    assert Distinct(names);
    UnindexedCount(es, l, f, disk);
    StaleOutlivesReconcileIff(es, listing, f, now);
    if |l| > TAIL_K {
      assert l[TAIL_K] in listing && l[TAIL_K] !in names;
    } else {
      assert names == l;
    }
    WindowTruthOnDisk(es, disk, n);
    OneStaleName(es, l, f, disk, t);
  }

  lemma UnindexedCount(es: seq<TailEntry>, l: seq<string>, f: string, disk: set<string>)
    requires Caches(es, l) && f in Names(es) && forall g :: g in disk <==> g in l && g != f
    ensures |Unindexed(es, disk)| == |l| - |es|
  {
    var names := Names(es);
    var rest := l[|names|..];
    assert l == names + rest;
    forall x | x in rest ensures x !in names {
      var i :| 0 <= i < |rest| && rest[i] == x;
      assert l[|names| + i] == x;
      assert forall j :: 0 <= j < |names| ==> names[j] == l[j];
    }
    assert Distinct(rest);
    assert forall x :: x in rest <==> x in Unindexed(es, disk);
    DistinctCount(rest, Unindexed(es, disk));
  }

  lemma OneStaleName(es: seq<TailEntry>, l: seq<string>, f: string, disk: set<string>, t: nat)
    requires Caches(es, l) && f in Names(es) && t <= |es| && forall g :: g in disk <==> g in l && g != f
    ensures StalePast(es, disk, t) == if f in Names(es)[..t] then {} else {f}
  {
    var names := Names(es);
    assert names == names[..t] + names[t..];
    assert forall i :: 0 <= i < |names| ==> names[i] == l[i];
    forall g | g in names[t..] ensures g in l && g !in names[..t] {
      var i :| 0 <= i < |names[t..]| && names[t..][i] == g;
      assert names[t + i] == g;
    }
  }

  // --- Reconciling more files than the index holds --------------------------------------------------------

  /**
   With more files than the index holds, every opening orders the index by name: it then lists the greatest names,
   greatest first, whatever the order it had.
   */
  lemma OverflowIsOrderedByName(es: seq<TailEntry>, listing: seq<string>, disk: set<string>, now: int)
    requires Lists(listing, disk) && |es| <= TAIL_K < |listing|
    ensures var names := Names(Reconciled(es, listing, now)); |names| == TAIL_K && ShowsUpper(names, disk)
  {
    if forall f :: f in listing ==> f in Names(es) {
      ListingNoLonger(listing, Names(es));
    }
    ChosenNames(es, listing, now);
    ChosenIsUpper(listing, disk);
  }
}
