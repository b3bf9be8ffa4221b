/** The agent filesystem as an object over its storage, method by method. */
module AgentFilesystem {
  import opened Wrappers
  import opened Sorting
  import opened Paths
  import opened RecencyTail
  import opened AgentStore

  /** Entry names directly under a directory: a file by name, a nested directory as `name/`. */
  function DirEntry(rest: string): string {
    if rest == "" then ""
    else if rest[0] == '/' then "/"
    else [rest[0]] + DirEntry(rest[1..])
  }

  function DirEntries(disk: Disk, prefix: string): set<string> {
    set k | k in disk.Keys && StartsWith(k, prefix) && k != prefix && k[|prefix|..] != "_tail.json" ::
      DirEntry(k[|prefix|..])
  }

  /** The window read off a directory listing when there is no usable index. */
  function ListingWindow(entries: seq<string>, n: nat): Window {
    var shown := ListRead(entries, n);
    Window(shown, if |entries| == |shown| then Nothing else Exactly(|entries| - |shown|))
  }

  method SortedList(names: set<string>) returns (l: seq<string>)
    ensures Lists(l, names)
  {
    var rest, found := names, [];
    while rest != {}
      invariant Distinct(found) && forall x :: x in names <==> x in rest || x in found
      invariant forall x :: x in found ==> x !in rest
      decreases |rest|
    {
      var x :| x in rest;
      rest, found := rest - {x}, found + [x];
    }
    StrLeIsTotalOrder();
    SortSorts(found, StrLe);
    SortKeepsDistinct(found, StrLe);
    SortMembers(found, StrLe);
    l := Sort(found, StrLe);
  }

  /** The names in some order, each once. */
  lemma Enumerated(names: set<string>) returns (l: seq<string>)
    ensures Distinct(l) && forall x :: x in l <==> x in names
    decreases |names|
  {
    if names == {} {
      l := [];
    } else {
      var x :| x in names;
      var rest := Enumerated(names - {x});
      l := [x] + rest;
    }
  }

  /** The notes index repeats no name and is within its bound, as every index is that was written here. */
  ghost predicate IndexIsBounded(disk: Disk) {
    Distinct(Names(NotesDir.Tail(disk))) && |NotesDir.Tail(disk)| <= TAIL_K
  }

  /** And it has no stale name. */
  ghost predicate IndexesOnlyFiles(disk: Disk) {
    IndexIsBounded(disk) && forall f :: f in Names(NotesDir.Tail(disk)) ==> f in NotesDir.Files(disk)
  }

  /** Such an index goes with a recency list: its own order of the files it names, then the files it does not. */
  lemma RecencyOf(disk: Disk) returns (l: seq<string>)
    requires IndexIsBounded(disk)
    ensures LiveCaches(NotesDir.Tail(disk), l) && forall f :: f in l <==> f in NotesDir.Files(disk)
    ensures IndexesOnlyFiles(disk) ==> Caches(NotesDir.Tail(disk), l)
  {
    var names, files := Names(NotesDir.Tail(disk)), NotesDir.Files(disk);
    var live := Filter(names, (f: string) => f in files);
    var rest := Enumerated(files - set f | f in names);
    FilterKeeps(names, (f: string) => f in files);
    forall i, j | 0 <= i < |live| && 0 <= j < |rest| ensures live[i] != rest[j] {
      assert live[i] in live && rest[j] in rest;
    }
    l := live + rest;
    FiltersAgree(names, (f: string) => f in files, (f: string) => f in l);
    if IndexesOnlyFiles(disk) {
      FilterAll(names, (f: string) => f in files);
    }
  }

  lemma TailKeysDiffer(disk: Disk)
    ensures forall dir: Directory, other: Directory :: dir != other ==> dir.TailKey() != other.TailKey()
    ensures forall dir: Directory, other: Directory, f ::
      other.IsRecord(f) ==> other.Prefix() + f != dir.TailKey()
  {
    assert EvidenceDir.TailKey()[0] != NotesDir.TailKey()[0];
    forall dir: Directory, other: Directory, f | other.IsRecord(f) ensures other.Prefix() + f != dir.TailKey() {
      if dir == other {
        assert (dir.Prefix() + f)[|dir.Prefix()|..] == f && dir.TailKey()[|dir.Prefix()|..] == "_tail.json";
      } else {
        assert (other.Prefix() + f)[0] == other.Prefix()[0] && dir.TailKey()[0] == dir.Prefix()[0];
      }
    }
  }

  /** Rewriting an index moves no file and no other index. */
  lemma IndexWriteIsLocal(disk: Disk, dir: Directory, entries: seq<TailEntry>)
    ensures var disk' := disk[dir.TailKey() := Index(entries)];
      && dir.Tail(disk') == entries
      && (forall other: Directory :: other.Files(disk') == other.Files(disk))
      && (forall other: Directory :: other != dir ==> other.Tail(disk') == other.Tail(disk))
  {
    TailKeysDiffer(disk);
    var disk' := disk[dir.TailKey() := Index(entries)];
    forall other: Directory ensures other.Files(disk') == other.Files(disk) {
      assert forall f :: f in other.Files(disk') <==> f in other.Files(disk);
    }
  }

  /**
   A reconcile of one directory: its index is complete below capacity, no worse than before in its bound and its
   names, and nothing else has moved.
   */
  ghost predicate Reindexed(before: Disk, after: Disk, dir: Directory) {
    && SubCapacityComplete(dir.Tail(after), dir.Files(after))
    && (forall key :: key != dir.TailKey() ==> At(after, key) == At(before, key))
    && (forall other: Directory :: other.Files(after) == other.Files(before))
    && (forall other: Directory :: other != dir ==> other.Tail(after) == other.Tail(before))
    && (dir.Files(after) != {} ==> dir.TailKey() in after && after[dir.TailKey()].Index?)
    && IndexNoWorse(dir.Tail(before), dir.Tail(after), dir.Files(before))
  }

  /** An index that names every file is left as it is; any other is rebuilt from the directory. */
  ghost predicate IndexedAnew(before: seq<TailEntry>, after: seq<TailEntry>, files: set<string>, now: int) {
    if forall f :: f in files ==> f in Names(before) then after == before else IsRebuilt(before, after, files, now)
  }

  ghost predicate IndexNoWorse(before: seq<TailEntry>, after: seq<TailEntry>, files: set<string>) {
    && (Distinct(Names(before)) ==> Distinct(Names(after)))
    && (|before| <= TAIL_K ==> |after| <= TAIL_K)
    && ((forall f :: f in Names(before) ==> f in files) ==> forall f :: f in Names(after) ==> f in files)
  }

  /** What a reconcile of both directories does to each index. */
  lemma BothIndexedAnew(before: Disk, between: Disk, after: Disk, now: int)
    requires Reindexed(before, between, EvidenceDir) && Reindexed(between, after, NotesDir)
    requires IndexedAnew(EvidenceDir.Tail(before), EvidenceDir.Tail(between), EvidenceDir.Files(before), now)
    requires IndexedAnew(NotesDir.Tail(between), NotesDir.Tail(after), NotesDir.Files(between), now)
    ensures forall dir: Directory :: IndexedAnew(dir.Tail(before), dir.Tail(after), dir.Files(before), now)
    ensures SubCapacityComplete(EvidenceDir.Tail(after), EvidenceDir.Files(after))
    ensures IndexIsBounded(before) ==> IndexIsBounded(after)
    ensures IndexesOnlyFiles(before) ==> IndexesOnlyFiles(after)
  {
    assert EvidenceDir.Tail(after) == EvidenceDir.Tail(between) && NotesDir.Tail(between) == NotesDir.Tail(before);
  }

  lemma NothingToReindex(disk: Disk, dir: Directory, listing: seq<string>, now: int)
    requires Lists(listing, dir.Files(disk))
    requires listing == [] || forall f :: f in listing ==> f in Names(dir.Tail(disk))
    ensures Reindexed(disk, disk, dir)
  {
    if listing != [] {
      assert listing[0] in listing && listing[0] in Names(dir.Tail(disk));
    } else {
      assert dir.Files(disk) == {};
    }
  }

  lemma RebuildReindexes(disk: Disk, dir: Directory, listing: seq<string>, now: int)
    requires Lists(listing, dir.Files(disk))
    requires !(forall f :: f in listing ==> f in Names(dir.Tail(disk)))
    ensures Reindexed(disk, disk[dir.TailKey() := Index(Rebuilt(dir.Tail(disk), listing, now))], dir)
  {
    var rebuilt := Rebuilt(dir.Tail(disk), listing, now);
    IndexWriteIsLocal(disk, dir, rebuilt);
    ReconcileRestoresCompleteness(dir.Tail(disk), listing, dir.Files(disk), now);
  }

  /** The notes index is there and readable. */
  ghost predicate HasIndex(disk: Disk) {
    NotesDir.TailKey() in disk && disk[NotesDir.TailKey()].Index?
  }

  /** Below capacity, without a repeated name, and missing no file. */
  ghost predicate IsCompleteIndex(es: seq<TailEntry>, files: set<string>) {
    Distinct(Names(es)) && |es| < TAIL_K && SubCapacityComplete(es, files)
  }

  /** The files that the notes index names are the newest in order, and the list names exactly the notes on disk. */
  ghost predicate Follows(disk: Disk, recency: seq<string>) {
    && LiveCaches(NotesDir.Tail(disk), recency)
    && (forall f :: f in recency <==> f in NotesDir.Files(disk))
    && (recency != [] ==> HasIndex(disk))
  }

  /** An operation moves the recency list as it moves the notes on disk, and leaves an index if it leaves a note. */
  lemma OpMovesRecency(disk: Disk, recency: seq<string>, op: FsOp, now: int)
    requires PlanKey(op).Ok?
    requires forall f :: f in recency <==> f in NotesDir.Files(disk)
    requires recency != [] ==> HasIndex(disk)
    ensures var disk', recency' := ApplyOp(disk, op, now), RecencyAfter(recency, NoteOps([op], now)[0]);
      && (forall f :: f in recency' <==> f in NotesDir.Files(disk'))
      && (recency' != [] ==> HasIndex(disk'))
  {
    OpMovesFiles(disk, op, now);
    DroppedFacts(recency, PlanKey(op).value[6..]);
    OpKeepsIndex(disk, op, now);
  }

  lemma OpKeepsIndex(disk: Disk, op: FsOp, now: int)
    requires PlanKey(op).Ok?
    ensures op.WriteFile? || HasIndex(disk) ==> HasIndex(ApplyOp(disk, op, now))
  {
  }

  /** An operation keeps the index following the recency list, and free of stale names if it was. */
  lemma OpKeepsFollowing(disk: Disk, recency: seq<string>, op: FsOp, now: int)
    requires PlanKey(op).Ok?
    ensures var disk', recency' := ApplyOp(disk, op, now), RecencyAfter(recency, NoteOps([op], now)[0]);
      && (Follows(disk, recency) ==> Follows(disk', recency'))
      && (Caches(NotesDir.Tail(disk), recency) ==> Caches(NotesDir.Tail(disk'), recency'))
  {
    var tail, step := NotesDir.Tail(disk), NoteOps([op], now)[0];
    OpMovesTail(disk, op, now);
    if Follows(disk, recency) {
      LiveStep(tail, recency, step);
      OpMovesRecency(disk, recency, op, now);
    }
    if Caches(tail, recency) {
      TailStep(tail, recency, step);
    }
  }

  class AgentFs {
    var store: Disk
    /** Every live note, most recently written first, since the filesystem was opened. */
    ghost var recency: seq<string>

    /**
     Whatever stale names a crash has left on the notes index, the files it names are the newest in order; the
     recency list names exactly the notes on disk.
     */
    ghost predicate Valid()
      reads this
    {
      Follows(store, recency)
    }

    /** There is no stale name on it. */
    ghost predicate Clean()
      reads this
    {
      Caches(NotesDir.Tail(store), recency)
    }

    constructor (store: Disk)
      ensures this.store == store && recency == []
    {
      this.store := store;
      recency := [];
    }

    /**
     Opening rebuilds both indexes where they miss a file, and the notes index goes with a recency list again: its
     own order of the files it names, then the files it does not.
     */
    method Open(now: int)
      modifies this
      ensures SubCapacityComplete(EvidenceDir.Tail(store), EvidenceDir.Files(store))
      ensures SubCapacityComplete(NotesDir.Tail(store), NotesDir.Files(store))
      ensures forall dir: Directory ::
        IndexedAnew(old(dir.Tail(store)), dir.Tail(store), old(dir.Files(store)), now)
      ensures forall key :: key != NotesDir.TailKey() && key != EvidenceDir.TailKey() ==>
        At(store, key) == At(old(store), key)
      ensures old(IndexIsBounded(store)) ==> Valid()
      ensures old(IndexesOnlyFiles(store)) ==> Clean()
    {
      Reconcile(EvidenceDir, now);
      ghost var between := store;
      Reconcile(NotesDir, now);
      BothIndexedAnew(old(store), between, store, now);
      assert NotesDir.Files(store) != {} ==> HasIndex(store);
      if old(IndexIsBounded(store)) {
        recency := RecencyOf(store);
        assert recency != [] ==> recency[0] in NotesDir.Files(store);
      }
    }

    method Reconcile(dir: Directory, now: int)
      modifies this`store
      ensures Reindexed(old(store), store, dir)
      ensures IndexedAnew(old(dir.Tail(store)), dir.Tail(store), old(dir.Files(store)), now)
    {
      var listing := SortedList(dir.Files(store));
      if listing == [] || forall f :: f in listing ==> f in Names(dir.Tail(store)) {
        NothingToReindex(store, dir, listing, now);
        return;
      }
      RebuildReindexes(store, dir, listing, now);
      RebuildIsGreatestFirst(dir.Tail(store), listing, dir.Files(store), now);
      IndexWriteIsLocal(store, dir, Rebuilt(dir.Tail(store), listing, now));
      store := store[dir.TailKey() := Index(Rebuilt(dir.Tail(store), listing, now))];
    }

    method AppendTail(dir: Directory, filename: string, now: int)
      modifies this`store
      ensures store == AppendToTail(old(store), dir, filename, now)
    {
      var entries := dir.Tail(store);
      entries := Without(entries, filename);
      entries := [TailEntry(filename, now)] + entries;
      if |entries| > TAIL_K {
        entries := entries[..TAIL_K];
      }
      store := store[dir.TailKey() := Index(entries)];
    }

    method RemoveTail(dir: Directory, filename: string)
      modifies this`store
      ensures store == RemoveFromTail(old(store), dir, filename)
    {
      if dir.TailKey() !in store {
        return;
      }
      var entries := dir.Tail(store);
      var before := |entries|;
      entries := Without(entries, filename);
      if |entries| == before {
        return;
      }
      store := store[dir.TailKey() := Index(entries)];
    }

    /** Evidence is written once: an existing record, and every other key but the index, is left alone. */
    method PutEvidence(record: Record, slugSeed: string, now: int) returns (relpath: string)
      requires |record.id| >= 8
      modifies this`store
      ensures relpath == EvidenceRelpath(slugSeed, record.id)
      ensures store == RecordEvidence(old(store), EvidenceFilename(slugSeed, record.id), record, now)
      ensures relpath in store && (relpath in old(store) ==> store == old(store))
      ensures forall key :: key in old(store) && key != EvidenceDir.TailKey() ==>
        key in store && store[key] == old(store)[key]
      ensures old(SubCapacityComplete(EvidenceDir.Tail(store), EvidenceDir.Files(store))
                  && Distinct(Names(EvidenceDir.Tail(store))) && |EvidenceDir.Tail(store)| <= TAIL_K)
              ==> SubCapacityComplete(EvidenceDir.Tail(store), EvidenceDir.Files(store))
    {
      var filename := EvidenceFilename(slugSeed, record.id);
      relpath := EvidenceDir.Prefix() + filename;
      EvidenceFilenameIsNotTheTail(slugSeed, record.id);
      if relpath in store {
        return;
      }
      ghost var tail, files := EvidenceDir.Tail(store), EvidenceDir.Files(store);
      store := store[relpath := Evidence(record)];
      AppendTail(EvidenceDir, filename, now);
      if SubCapacityComplete(tail, files) && Distinct(Names(tail)) && |tail| <= TAIL_K {
        WriteKeepsCompleteness(tail, files, filename, now);
        forall f | f in EvidenceDir.Files(store) ensures f in files || f == filename {
          assert EvidenceDir.Prefix() + f in old(store) || EvidenceDir.Prefix() + f == relpath;
          assert (EvidenceDir.Prefix() + f)[9..] == f && relpath[9..] == filename;
        }
      }
    }

    /** The output is replaced exactly when there is a citation and every citation resolves. */
    method WriteOutput(body: string, citations: seq<string>) returns (r: Result<Sha, FsError>)
      modifies this`store
      ensures OutputFault(old(store), citations).None? ==>
        store == old(store)[OUTPUT := Text(body)] && r == Ok(Sha(Text(body)))
      ensures OutputFault(old(store), citations).Some? ==>
        store == old(store) && r == Err(OutputFault(old(store), citations).value)
      ensures r.Ok? <==> citations != [] && forall c :: c in citations ==> ReadEvidence(old(store), c).Ok?
      ensures citations == [] ==> r == Err(EmptyEvidence)
      ensures r.Err? && citations != [] ==> exists i :: FailsFirst(old(store), citations, i, r.error)
    {
      if citations == [] {
        return Err(EmptyEvidence);
      }
      NoFaultMeansAllResolve(store, citations);
      var fault := FirstUnresolved(citations);
      if fault.Some? {
        FirstFaultIsFirst(store, citations, fault.value);
        return Err(fault.value);
      }
      store := store[OUTPUT := Text(body)];
      r := Ok(Sha(Text(body)));
    }

    method FirstUnresolved(citations: seq<string>) returns (fault: Option<FsError>)
      ensures fault == FirstFault(store, citations)
    {
      var disk := store;
      for i := 0 to |citations|
        invariant FirstFault(disk, citations[i..]) == FirstFault(disk, citations)
      {
        FaultStep(disk, citations, i);
        var found := ReadEvidence(disk, citations[i]);
        if found.Err? {
          return Some(found.error);
        }
      }
      fault := None;
    }

    /**
     A batch is all or nothing: one path outside the writable surface and nothing changes; otherwise the disk is
     the fold of the operations and the recency list moves with it.
     */
    method ApplyOps(ops: seq<FsOp>, now: int) returns (r: Result<(), FsError>)
      modifies this
      ensures (old(Valid()) ==> Valid()) && (old(Clean()) ==> Clean())
      ensures r.Ok? <==> AllPlanned(ops)
      ensures r.Err? ==> store == old(store) && recency == old(recency)
      ensures r.Err? ==> exists i :: StopsPlan(ops, i, r.error)
      ensures r.Ok? ==> store == ApplyAll(old(store), ops, now)
      ensures r.Ok? ==> recency == RecencyRun(old(recency), NoteOps(ops, now))
    {
      var fault := FirstBadPath(ops);
      if fault.Some? {
        return Err(fault.value);
      }
      ApplyPlanned(ops, now);
      r := Ok(());
    }

    method FirstBadPath(ops: seq<FsOp>) returns (fault: Option<FsError>)
      ensures fault.None? <==> AllPlanned(ops)
      ensures fault.Some? ==> exists i :: StopsPlan(ops, i, fault.value)
    {
      for i := 0 to |ops|
        invariant forall k :: 0 <= k < i ==> PlanKey(ops[k]).Ok?
      {
        var key := PlanKey(ops[i]);
        if key.Err? {
          assert ops[i] in ops && StopsPlan(ops, i, key.error);
          return Some(key.error);
        }
      }
      fault := None;
    }

    method ApplyPlanned(ops: seq<FsOp>, now: int)
      requires AllPlanned(ops)
      modifies this
      ensures (old(Valid()) ==> Valid()) && (old(Clean()) ==> Clean())
      ensures store == ApplyAll(old(store), ops, now)
      ensures recency == RecencyRun(old(recency), NoteOps(ops, now))
    {
      for i := 0 to |ops|
        invariant (old(Valid()) ==> Valid()) && (old(Clean()) ==> Clean()) && AllPlanned(ops[i..])
        invariant ApplyAll(store, ops[i..], now) == ApplyAll(old(store), ops, now)
        invariant RecencyRun(recency, NoteOps(ops[i..], now)) == RecencyRun(old(recency), NoteOps(ops, now))
      {
        PeelOp(store, ops, i, now);
        PeelNote(recency, ops, i, now);
        ApplyOne(ops[i], now);
      }
    }

    method ApplyOne(op: FsOp, now: int)
      requires PlanKey(op).Ok?
      modifies this
      ensures (old(Valid()) ==> Valid()) && (old(Clean()) ==> Clean())
      ensures store == ApplyOp(old(store), op, now)
      ensures recency == RecencyAfter(old(recency), NoteOps([op], now)[0])
    {
      OpKeepsFollowing(store, recency, op, now);
      ApplyToStore(op, now);
      recency := RecencyAfter(recency, NoteOps([op], now)[0]);
    }

    method ApplyToStore(op: FsOp, now: int)
      requires PlanKey(op).Ok?
      modifies this`store
      ensures store == ApplyOp(old(store), op, now)
    {
      var key := PlanKey(op).value;
      match op {
        case WriteFile(_, content) =>
          store := store[key := Text(content)];
          AppendTail(NotesDir, key[6..], now);
        case DeleteFile(_) =>
          store := store - {key};
          RemoveTail(NotesDir, key[6..]);
      }
    }

    /** The seed's window over the notes: off the index when it is readable, else off the directory listing. */
    method RecentNotes(n: nat) returns (w: Window)
      ensures n == 0 ==> w == Window([], Nothing)
      ensures HasIndex(store) ==> w == TailWindow(NotesDir.Tail(store), n)
      ensures n > 0 && !HasIndex(store) ==>
        exists entries :: Lists(entries, DirEntries(store, NotesDir.Prefix())) && w == ListingWindow(entries, n)
    {
      if n == 0 {
        return Window([], Nothing);
      }
      if NotesDir.TailKey() in store && store[NotesDir.TailKey()].Index? {
        return TailWindow(store[NotesDir.TailKey()].entries, n);
      }
      var entries := SortedList(DirEntries(store, NotesDir.Prefix()));
      w := ListingWindow(entries, n);
    }

    /**
     The notes part of a cycle's seed: the window with the standing note pinned in front. Its count of the rest is
     right of an exact index; and of any index that is complete below capacity, stale names or not, exactly if no
     name past the window is stale.
     */
    method SeedNotes(n: nat, status: string) returns (w: Window)
      requires n > 0 && NotesDir.IsRecord(status)
      ensures HasIndex(store) ==>
        w == Pinned(TailWindow(NotesDir.Tail(store), n), status, status in NotesDir.Files(store))
      ensures !HasIndex(store) ==>
        exists entries ::
          && Lists(entries, DirEntries(store, NotesDir.Prefix()))
          && w == Pinned(ListingWindow(entries, n), status, status in NotesDir.Files(store))
      ensures HasIndex(store) && IsCompleteIndex(NotesDir.Tail(store), NotesDir.Files(store)) ==>
        (w.more.TrueOf(|Beyond(NotesDir.Files(store), w.filenames)|) <==>
         forall i :: n <= i < |NotesDir.Tail(store)| ==> Names(NotesDir.Tail(store))[i] in NotesDir.Files(store))
      ensures Valid() && Clean() && recency != [] ==>
        && Distinct(w.filenames) && (forall x :: x in w.filenames ==> x in recency)
        && (status in recency ==> status in w.filenames)
        && w.more.Floor() <= |recency| - |w.filenames|
        && (Exact(NotesDir.Tail(store), recency) ==> w.more.TrueOf(|recency| - |w.filenames|))
    {
      ghost var tail, files := NotesDir.Tail(store), NotesDir.Files(store);
      w := RecentNotes(n);
      if Clean() {
        PinKeepsCountsRight(tail, recency, n, status);
      }
      if HasIndex(store) && IsCompleteIndex(tail, files) {
        CompleteWindowTruth(tail, files, n);
        PinKeepsTruthOnDisk(tail, files, n, status);
      }
      if status !in w.filenames && NotesDir.Prefix() + status in store {
        w := Window([status] + w.filenames, w.more.Decremented());
      }
    }

    /**
     Recent evidence, by name: off a sub-capacity index, else off the listing. Where the index misses no file and
     the window covers it, either path yields every record in ascending order.
     */
    method RecentEvidence(n: nat) returns (names: seq<string>)
      ensures n == 0 ==> names == []
      ensures n > 0 && UsableIndex(store) ==> names == TailRead(EvidenceDir.Tail(store), EvidenceOnDisk(store), n)
      ensures n > 0 && !UsableIndex(store) ==>
        exists listing :: Lists(listing, ReadableEvidence(store)) && names == ListRead(listing, n)
      ensures n >= |EvidenceDir.Tail(store)| && n >= |ReadableEvidence(store)| && IndexesReadable(store)
        ==> Lists(names, ReadableEvidence(store))
    {
      if n == 0 {
        return [];
      }
      var tailKey := EvidenceDir.TailKey();
      if tailKey in store && store[tailKey].Index? {
        var entries := store[tailKey].entries;
        if |entries| < TAIL_K {
          names := TailRead(entries, EvidenceOnDisk(store), n);
          if IndexesReadable(store) && n >= |entries| {
            TailReadLists(entries, EvidenceOnDisk(store), n);
            assert Names(entries)[..Min(|entries|, n)] == Names(entries);
            assert (set f | f in Names(entries) && f in EvidenceOnDisk(store)) == ReadableEvidence(store);
          }
          return;
        }
      }
      var listing := SortedList(ReadableEvidence(store));
      names := ListRead(listing, n);
      assert |listing| == |ReadableEvidence(store)| by {
        DistinctCount(listing, ReadableEvidence(store));
      }
      assert listing[0..] == listing;
    }
  }

  /** The evidence index is there and below capacity. */
  predicate UsableIndex(disk: Disk) {
    EvidenceDir.TailKey() in disk && disk[EvidenceDir.TailKey()].Index? && |EvidenceDir.Tail(disk)| < TAIL_K
  }

  /** The evidence index has no repeated name, names evidence files only, and below capacity misses none. */
  ghost predicate IndexesReadable(disk: Disk) {
    var names := Names(EvidenceDir.Tail(disk));
    && Distinct(names)
    && (forall f :: f in names ==> EvidenceDir.IsRecord(f) && !EndsWith(f, "/_tail.json"))
    && SubCapacityComplete(EvidenceDir.Tail(disk), EvidenceDir.Files(disk))
  }

  lemma PeelOne(ops: seq<FsOp>, i: nat)
    requires i < |ops| && AllPlanned(ops[i..])
    ensures PlanKey(ops[i]).Ok? && AllPlanned(ops[i + 1..])
    ensures ops[i..][0] == ops[i] && ops[i..][1..] == ops[i + 1..]
  {
    var rest := ops[i..];
    assert ops[i] in rest && forall op :: op in rest[1..] ==> op in rest;
  }

  lemma PeelOp(disk: Disk, ops: seq<FsOp>, i: nat, now: int)
    requires i < |ops| && AllPlanned(ops[i..])
    ensures PlanKey(ops[i]).Ok? && AllPlanned(ops[i + 1..])
    ensures ApplyAll(disk, ops[i..], now) == ApplyAll(ApplyOp(disk, ops[i], now), ops[i + 1..], now)
  {
    PeelOne(ops, i);
  }

  lemma PeelNote(l: seq<string>, ops: seq<FsOp>, i: nat, now: int)
    requires i < |ops| && AllPlanned(ops[i..])
    ensures PlanKey(ops[i]).Ok? && AllPlanned(ops[i + 1..])
    ensures RecencyRun(l, NoteOps(ops[i..], now))
         == RecencyRun(RecencyAfter(l, NoteOps([ops[i]], now)[0]), NoteOps(ops[i + 1..], now))
  {
    PeelOne(ops, i);
    var rest, notes := ops[i..], NoteOps(ops[i..], now);
    assert notes[0] == NoteOps([ops[i]], now)[0];
    assert notes[1..] == NoteOps(ops[i + 1..], now);
  }

  /** Whatever is stored under `evidence/`, by name. */
  function EvidenceOnDisk(disk: Disk): (r: set<string>)
    ensures forall f :: f in r <==> EvidenceDir.Prefix() + f in disk
  {
    var r := set k | k in disk.Keys && StartsWith(k, EvidenceDir.Prefix()) :: k[9..];
    assert forall k :: StartsWith(k, EvidenceDir.Prefix()) ==> k == EvidenceDir.Prefix() + k[9..];
    assert forall f ::
      StartsWith(EvidenceDir.Prefix() + f, EvidenceDir.Prefix()) && (EvidenceDir.Prefix() + f)[9..] == f;
    r
  }

  /** What the listing read keeps: `.json` files, no index at any depth. */
  function ReadableEvidence(disk: Disk): set<string> {
    set f | f in EvidenceDir.Files(disk) && !EndsWith(f, "/_tail.json")
  }

  lemma EvidenceFilenameIsNotTheTail(slugSeed: string, id: string)
    requires |id| >= 8
    ensures EvidenceDir.IsRecord(EvidenceFilename(slugSeed, id))
    ensures EvidenceRelpath(slugSeed, id) != EvidenceDir.TailKey()
  {
    var f := EvidenceFilename(slugSeed, id);
    assert f[|f| - 5..] == ".json";
    assert |f| >= 13 && |"_tail.json"| == 10;
    assert EvidenceRelpath(slugSeed, id)[9..] == f;
  }

  lemma OpMovesFiles(disk: Disk, op: FsOp, now: int)
    requires PlanKey(op).Ok?
    ensures var f := PlanKey(op).value[6..];
      forall g :: g in NotesDir.Files(ApplyOp(disk, op, now)) <==>
        if g == f then op.WriteFile? else g in NotesDir.Files(disk)
  {
    var key := PlanKey(op).value;
    assert key == "notes/" + key[6..];
    forall g | NotesDir.IsRecord(g)
      ensures ("notes/" + g == key) == (g == key[6..]) && "notes/" + g != NotesDir.TailKey()
    {
      assert ("notes/" + g)[6..] == g && NotesDir.TailKey()[6..] == "_tail.json";
    }
  }

  // --- The window without an index ------------------------------------------------------------------------

  /** Under `notes/` there is nothing but notes and the index. */
  ghost predicate OnlyNotes(disk: Disk) {
    forall k :: k in disk && StartsWith(k, "notes/") && k != NotesDir.TailKey() ==>
      k != "notes/" && NotesDir.IsRecord(k[6..])
  }

  /** The two files lie under one directory. */
  ghost predicate ShareDirectory(f: string, g: string) {
    exists d :: SlashFree(d) && StartsWith(f, d + "/") && StartsWith(g, d + "/")
  }

  ghost predicate NoDirectoryOfTwo(files: set<string>) {
    forall f, g :: f in files && g in files && f != g ==> !ShareDirectory(f, g)
  }

  lemma {:induction false} PlainEntry(f: string)
    requires SlashFree(f)
    ensures DirEntry(f) == f
  {
    if f != "" {
      assert f[0] in f && forall c :: c in f[1..] ==> c in f;
      PlainEntry(f[1..]);
    }
  }

  lemma {:induction false} NestedEntry(f: string) returns (d: string)
    requires !SlashFree(f)
    ensures SlashFree(d) && DirEntry(f) == d + "/" && StartsWith(f, d + "/")
  {
    if f[0] == '/' {
      d := "";
    } else {
      assert f == [f[0]] + f[1..];
      var inner := NestedEntry(f[1..]);
      d := [f[0]] + inner;
      assert d + "/" == [f[0]] + (inner + "/");
    }
  }

  lemma {:induction false} DirEntryUnder(d: string, f: string)
    requires SlashFree(d) && StartsWith(f, d + "/")
    ensures DirEntry(f) == d + "/"
  {
    if d == "" {
      assert f[0] == '/';
    } else {
      assert f[0] == d[0] && d[0] in d;
      assert (d + "/")[1..] == d[1..] + "/";
      assert f[1..][..|d|] == f[..|d| + 1][1..];
      DirEntryUnder(d[1..], f[1..]);
    }
  }

  /** Two files have one entry exactly when they lie under one directory. */
  lemma OneEntryIffShared(f: string, g: string)
    requires f != g
    ensures DirEntry(f) == DirEntry(g) <==> ShareDirectory(f, g)
  {
    if ShareDirectory(f, g) {
      var d :| SlashFree(d) && StartsWith(f, d + "/") && StartsWith(g, d + "/");
      DirEntryUnder(d, f);
      DirEntryUnder(d, g);
    } else if SlashFree(f) && SlashFree(g) {
      PlainEntry(f);
      PlainEntry(g);
    } else if SlashFree(f) {
      PlainNotNested(f, g);
    } else if SlashFree(g) {
      PlainNotNested(g, f);
    } else {
      var d := NestedEntry(f);
      var e := NestedEntry(g);
    }
  }

  lemma PlainNotNested(f: string, g: string)
    requires SlashFree(f) && !SlashFree(g)
    ensures DirEntry(f) != DirEntry(g)
  {
    PlainEntry(f);
    var d := NestedEntry(g);
    assert (d + "/")[|d|] == '/';
  }

  /** The file shares its directory with none of the others. */
  ghost predicate SharesWithNone(f: string, others: set<string>) {
    forall g :: g in others ==> !ShareDirectory(f, g)
  }

  lemma OneMoreFile(f: string, others: set<string>)
    requires f !in others
    ensures NoDirectoryOfTwo(others + {f}) <==> NoDirectoryOfTwo(others) && SharesWithNone(f, others)
  {
    forall g ensures ShareDirectory(f, g) == ShareDirectory(g, f) {
    }
  }

  lemma OneMoreEntry(f: string, others: set<string>, entries: set<string>, rest: set<string>)
    requires f !in others
    requires forall e :: e in entries <==> exists g :: g in others + {f} && DirEntry(g) == e
    requires forall e :: e in rest <==> exists g :: g in others && DirEntry(g) == e
    ensures entries == rest + {DirEntry(f)} && (DirEntry(f) in rest <==> !SharesWithNone(f, others))
  {
    forall e ensures e in entries <==> e in rest || e == DirEntry(f) {
      assert f in others + {f};
    }
    forall g | g in others ensures DirEntry(f) == DirEntry(g) <==> ShareDirectory(f, g) {
      OneEntryIffShared(f, g);
    }
  }

  /** One entry per file exactly if no directory holds two. */
  lemma {:induction false} EntriesCount(files: set<string>, entries: set<string>)
    requires forall e :: e in entries <==> exists f :: f in files && DirEntry(f) == e
    ensures |entries| <= |files|
    ensures |entries| == |files| <==> NoDirectoryOfTwo(files)
    decreases |files|
  {
    if files == {} {
      assert entries == {};
    } else {
      var f :| f in files;
      var others := files - {f};
      assert files == others + {f};
      var rest := set g | g in others :: DirEntry(g);
      EntriesCount(others, rest);
      OneMoreEntry(f, others, entries, rest);
      OneMoreFile(f, others);
    }
  }

  lemma EntriesAreOfFiles(disk: Disk)
    requires OnlyNotes(disk)
    ensures forall e :: e in DirEntries(disk, "notes/") <==> exists f :: f in NotesDir.Files(disk) && DirEntry(f) == e
  {
    var files := NotesDir.Files(disk);
    assert NotesDir.TailKey()[6..] == "_tail.json";
    forall e | e in DirEntries(disk, "notes/") ensures exists f :: f in files && DirEntry(f) == e {
      var k :|
        && k in disk.Keys && StartsWith(k, "notes/") && k != "notes/"
        && k[6..] != "_tail.json" && DirEntry(k[6..]) == e;
      assert k == "notes/" + k[6..];
      assert k[6..] in files;
    }
    forall f | f in files ensures DirEntry(f) in DirEntries(disk, "notes/") {
      var k := "notes/" + f;
      assert k[6..] == f && StartsWith(k, "notes/");
    }
  }

  /** Without an index the count is of directory entries: that of files exactly if no directory holds two. */
  lemma ListingCountsDirectoriesNotFiles(disk: Disk)
    requires OnlyNotes(disk)
    ensures |DirEntries(disk, "notes/")| == |NotesDir.Files(disk)| <==> NoDirectoryOfTwo(NotesDir.Files(disk))
    ensures |DirEntries(disk, "notes/")| <= |NotesDir.Files(disk)|
  {
    EntriesAreOfFiles(disk);
    EntriesCount(NotesDir.Files(disk), DirEntries(disk, "notes/"));
  }

  /**
   The window off the listing never over-reports. Its claim is literally true of the number of files less the number
   of names shown exactly if no directory holds two files; and of the files not shown by name exactly if, besides,
   every name shown is a file.
   */
  lemma ListingWindowTruth(disk: Disk, entries: seq<string>, n: nat)
    requires OnlyNotes(disk) && Lists(entries, DirEntries(disk, "notes/"))
    ensures var w := ListingWindow(entries, n);
      |w.filenames| == Min(|entries|, n) && SortedBy(w.filenames, StrLe) && IsUpperPart(w.filenames, entries)
    ensures var w, files := ListingWindow(entries, n), NotesDir.Files(disk);
      && w.more.Floor() <= |files| - |w.filenames|
      && (w.more.TrueOf(|files| - |w.filenames|) <==> NoDirectoryOfTwo(files))
      && (w.more.TrueOf(|Beyond(files, w.filenames)|) <==>
        NoDirectoryOfTwo(files) && forall e :: e in w.filenames ==> e in files)
  {
    var w, files := ListingWindow(entries, n), NotesDir.Files(disk);
    ListingCountsDirectoriesNotFiles(disk);
    DistinctCount(entries, DirEntries(disk, "notes/"));
    NotShown(files, w.filenames);
    ListReadIsUpperPart(entries, n);
  }

  /** As many files are not shown as there are files less names, exactly if every name shown is a file. */
  lemma NotShown(files: set<string>, shown: seq<string>)
    requires Distinct(shown)
    ensures |Beyond(files, shown)| >= |files| - |shown|
    ensures |Beyond(files, shown)| == |files| - |shown| <==> forall e :: e in shown ==> e in files
  {
    var names := set e | e in shown;
    DistinctCount(shown, names);
    assert Beyond(files, shown) == files - names;
    assert names == files * names + (names - files);
    assert files == files * names + (files - names);
    assert names - files == {} <==> forall e :: e in shown ==> e in files;
  }

  /** Two notes in one directory are counted once. */
  lemma TwoNotesCountedOnce()
    ensures
      var disk: Disk := map["notes/d/a.md" := Text(""), "notes/d/b.md" := Text("")];
      && |NotesDir.Files(disk)| == 2
      && DirEntries(disk, NotesDir.Prefix()) == {"d/"}
      && ListingWindow(["d/"], 8) == Window(["d/"], Nothing)
  {
    var disk: Disk := map["notes/d/a.md" := Text(""), "notes/d/b.md" := Text("")];
    assert "notes/d/a.md"[6..] == "d/a.md" && "notes/d/b.md"[6..] == "d/b.md";
    assert DirEntry("d/a.md") == "d/" && DirEntry("d/b.md") == "d/";
    assert NotesDir.Files(disk) == {"d/a.md", "d/b.md"};
    assert "notes/d/a.md" in disk.Keys;
    assert DirEntries(disk, NotesDir.Prefix()) == {"d/"};
    assert ["d/"][0..] == ["d/"];
  }
}
