/**
 Outputs and their citations across two stores: the agents' files, and the database with the file index and the
 citation rows. Writing an output is a fixed list of writes that can be cut anywhere and started again.
 */
module Provenance {
  import opened Wrappers
  import opened Sorting
  import opened Paths
  import opened RecencyTail
  import opened AgentStore
  import Slugs

  /** The cited end of a citation. */
  datatype Pin = Pin(agent: AgentId, path: string, sha: Sha)

  datatype Citation = Citation(citing: AgentId, citingPath: string, citingSha: Sha, cited: Pin)

  /** Both stores: files per agent, current version per tracked file, and citation rows without duplicates. */
  datatype Stores = Stores(
    disks: map<AgentId, Disk>, index: map<(AgentId, string), Sha>, citations: set<Citation>)
  {
    function DiskOf(a: AgentId): Disk {
      if a in disks then disks[a] else map[]
    }

    function WithDisk(a: AgentId, disk: Disk): Stores {
      this.(disks := disks[a := disk])
    }

    /** What is on record about one agent's output: its file, its indexed version, its citation rows. */
    function OutputOf(a: AgentId): OutputView {
      OutputView(
        At(DiskOf(a), OUTPUT),
        if (a, OUTPUT) in index then Some(index[(a, OUTPUT)]) else None,
        set c | c in citations && c.citing == a)
    }
  }

  datatype OutputView = OutputView(file: Option<Blob>, version: Option<Sha>, rows: set<Citation>)

  /** A reconcile record cites the child's output at the folded version; any other record is cited itself. */
  function Resolve(disk: Disk, self: AgentId, path: string): Result<Pin, FsError> {
    match ReadEvidence(disk, path)
    case Err(e) => Err(e)
    case Ok(blob) =>
      if !blob.Evidence? then Err(MalformedEvidence(path))
      else if blob.record.tool != RECONCILE then Ok(Pin(self, path, Sha(blob)))
      else match blob.record.fold
        case None => Err(MalformedEvidence(path))
        case Some(f) => Ok(Pin(f.child, OUTPUT, f.childSha))
  }

  ghost predicate AllResolve(disk: Disk, self: AgentId, citations: seq<string>) {
    forall c :: c in citations ==> Resolve(disk, self, c).Ok?
  }

  function Row(self: AgentId, body: string, pin: Pin): Citation {
    Citation(self, OUTPUT, Sha(Text(body)), pin)
  }

  function Rows(disk: Disk, self: AgentId, body: string, citations: seq<string>): set<Citation> {
    set c | c in citations && Resolve(disk, self, c).Ok? :: Row(self, body, Resolve(disk, self, c).value)
  }

  /** The stores after the first `k` writes of an attempt: the file, the index, then one row per citation. */
  function AfterWrites(s: Stores, a: AgentId, body: string, citations: seq<string>, k: nat): Stores
    requires k <= 2 + |citations|
  {
    var filed := if k >= 1 then s.WithDisk(a, s.DiskOf(a)[OUTPUT := Text(body)]) else s;
    var indexed := if k >= 2 then filed.(index := filed.index[(a, OUTPUT) := Sha(Text(body))]) else filed;
    if k <= 2 then indexed
    else indexed.(citations := indexed.citations + Rows(s.DiskOf(a), a, body, citations[..k - 2]))
  }

  function Uninterrupted(s: Stores, a: AgentId, body: string, citations: seq<string>): Stores {
    AfterWrites(s, a, body, citations, 2 + |citations|)
  }

  /** A row that says that this version of the output rests on what the citation leads to. */
  ghost predicate RowOf(disk: Disk, a: AgentId, version: Sha, c: string, row: Citation) {
    Resolve(disk, a, c) == Ok(row.cited) && row == Citation(a, OUTPUT, version, row.cited)
  }

  /** The output, its indexed version and one row for each citation are there, and nothing else has moved. */
  ghost predicate Publishes(before: Stores, after: Stores, a: AgentId, body: string, cited: seq<string>, version: Sha) {
    && version == Sha(Text(body)) && after.index == before.index[(a, OUTPUT) := version]
    && (forall b, key ::
        At(after.DiskOf(b), key) == if b == a && key == OUTPUT then Some(Text(body)) else At(before.DiskOf(b), key))
    && before.citations <= after.citations
    && (forall c :: c in cited ==> exists row :: row in after.citations && RowOf(before.DiskOf(a), a, version, c, row))
    && (forall row :: row in after.citations && row !in before.citations ==>
        exists c :: c in cited && RowOf(before.DiskOf(a), a, version, c, row))
  }

  lemma UninterruptedPublishes(s: Stores, a: AgentId, body: string, cited: seq<string>)
    requires AllResolve(s.DiskOf(a), a, cited)
    ensures Publishes(s, Uninterrupted(s, a, body, cited), a, body, cited, Sha(Text(body)))
  {
    var t, disk := Uninterrupted(s, a, body, cited), s.DiskOf(a);
    assert cited[..|cited|] == cited;
    forall c | c in cited ensures exists row :: row in t.citations && RowOf(disk, a, Sha(Text(body)), c, row) {
      assert RowOf(disk, a, Sha(Text(body)), c, Row(a, body, Resolve(disk, a, c).value));
    }
    forall row | row in t.citations && row !in s.citations
      ensures exists c :: c in cited && RowOf(disk, a, Sha(Text(body)), c, row)
    {
      var c :| c in cited && Resolve(disk, a, c).Ok? && row == Row(a, body, Resolve(disk, a, c).value);
      assert RowOf(disk, a, Sha(Text(body)), c, row);
    }
  }

  /** Wherever an attempt is cut: a new row's version is indexed, and an indexed version is that of the file. */
  lemma RowsRestOnIndexRestsOnFile(s: Stores, a: AgentId, body: string, cited: seq<string>, k: nat)
    requires k <= 2 + |cited|
    ensures var t, version := AfterWrites(s, a, body, cited, k), Sha(Text(body));
      && (t.citations != s.citations ==> t.index == s.index[(a, OUTPUT) := version])
      && (t.index != s.index ==> At(t.DiskOf(a), OUTPUT) == Some(Text(body)))
      && forall row :: row in t.citations && row !in s.citations ==>
          exists i :: 0 <= i < k - 2 && RowOf(s.DiskOf(a), a, version, cited[i], row)
  {
    var t, disk := AfterWrites(s, a, body, cited, k), s.DiskOf(a);
    forall row | row in t.citations && row !in s.citations
      ensures exists i :: 0 <= i < k - 2 && RowOf(disk, a, Sha(Text(body)), cited[i], row)
    {
      var c :| c in cited[..k - 2] && Resolve(disk, a, c).Ok? && row == Row(a, body, Resolve(disk, a, c).value);
      var i :| 0 <= i < k - 2 && cited[i] == c;
      assert RowOf(disk, a, Sha(Text(body)), cited[i], row);
    }
  }

  /** Evidence files, the index aside, of `before` are in `after` unchanged. */
  ghost predicate EvidenceKept(before: Disk, after: Disk) {
    forall key :: key in before && StartsWith(key, "evidence/") && key != EvidenceDir.TailKey() ==>
      key in after && after[key] == before[key]
  }

  /** Resolved citations stay resolved, to the same pin. */
  lemma ResolveIsStable(before: Disk, after: Disk, self: AgentId, path: string)
    requires EvidenceKept(before, after) && Resolve(before, self, path).Ok?
    ensures Resolve(after, self, path) == Resolve(before, self, path)
  {
  }

  lemma RowsAreStable(before: Disk, after: Disk, self: AgentId, body: string, citations: seq<string>)
    requires EvidenceKept(before, after) && AllResolve(before, self, citations)
    ensures Rows(after, self, body, citations) == Rows(before, self, body, citations)
    ensures AllResolve(after, self, citations)
  {
    forall c | c in citations ensures Resolve(after, self, c) == Resolve(before, self, c) {
      ResolveIsStable(before, after, self, c);
    }
  }

  lemma WritesKeepEvidence(s: Stores, a: AgentId, body: string, citations: seq<string>, k: nat)
    requires k <= 2 + |citations|
    ensures EvidenceKept(s.DiskOf(a), AfterWrites(s, a, body, citations, k).DiskOf(a))
  {
    assert OUTPUT[0] != "evidence/"[0];
  }

  /** The stores after attempts cut after `cuts[0]`, `cuts[1]`, ... writes. */
  function AfterCuts(s: Stores, a: AgentId, body: string, citations: seq<string>, cuts: seq<nat>): Stores
    requires forall i :: 0 <= i < |cuts| ==> cuts[i] <= 2 + |citations|
    decreases |cuts|
  {
    if cuts == [] then s
    else AfterCuts(AfterWrites(s, a, body, citations, cuts[0]), a, body, citations, cuts[1..])
  }

  /** However many attempts were cut, and wherever, the one that completes ends where a single call ends. */
  lemma {:induction false} RetriesConverge(s: Stores, a: AgentId, body: string, citations: seq<string>, cuts: seq<nat>)
    requires AllResolve(s.DiskOf(a), a, citations)
    requires forall i :: 0 <= i < |cuts| ==> cuts[i] <= 2 + |citations|
    ensures Uninterrupted(AfterCuts(s, a, body, citations, cuts), a, body, citations)
      == Uninterrupted(s, a, body, citations)
    decreases |cuts|
  {
    if cuts != [] {
      var t := AfterWrites(s, a, body, citations, cuts[0]);
      WritesKeepEvidence(s, a, body, citations, cuts[0]);
      RowsAreStable(s.DiskOf(a), t.DiskOf(a), a, body, citations);
      RetriesConverge(t, a, body, citations, cuts[1..]);
      OneCutIsRepaired(s, a, body, citations, cuts[0]);
    }
  }

  lemma OneCutIsRepaired(s: Stores, a: AgentId, body: string, citations: seq<string>, k: nat)
    requires AllResolve(s.DiskOf(a), a, citations) && k <= 2 + |citations|
    ensures Uninterrupted(AfterWrites(s, a, body, citations, k), a, body, citations)
      == Uninterrupted(s, a, body, citations)
  {
    var t, n := AfterWrites(s, a, body, citations, k), |citations|;
    WritesKeepEvidence(s, a, body, citations, k);
    RowsAreStable(s.DiskOf(a), t.DiskOf(a), a, body, citations);
    assert citations[..n] == citations;
    assert t.DiskOf(a)[OUTPUT := Text(body)] == s.DiskOf(a)[OUTPUT := Text(body)];
    assert t.disks[a := t.DiskOf(a)[OUTPUT := Text(body)]] == s.disks[a := s.DiskOf(a)[OUTPUT := Text(body)]];
    assert t.index[(a, OUTPUT) := Sha(Text(body))] == s.index[(a, OUTPUT) := Sha(Text(body))];
    if k > 2 {
      assert forall c :: c in citations[..k - 2] ==> c in citations;
      assert Rows(s.DiskOf(a), a, body, citations[..k - 2]) <= Rows(s.DiskOf(a), a, body, citations);
    }
    if n == 0 {
      assert Rows(s.DiskOf(a), a, body, citations) == {};
    }
  }

  lemma RowsOfSnoc(disk: Disk, self: AgentId, body: string, front: seq<string>, last: string)
    requires Resolve(disk, self, last).Ok?
    ensures Rows(disk, self, body, front + [last])
         == Rows(disk, self, body, front) + {Row(self, body, Resolve(disk, self, last).value)}
  {
    assert forall c :: c in front + [last] <==> c in front || c == last;
  }

  lemma RowsSnoc(disk: Disk, self: AgentId, body: string, citations: seq<string>, n: nat)
    requires n < |citations| && Resolve(disk, self, citations[n]).Ok?
    ensures Rows(disk, self, body, citations[..n + 1])
         == Rows(disk, self, body, citations[..n]) + {Row(self, body, Resolve(disk, self, citations[n]).value)}
  {
    CutAt(citations, n);
    RowsOfSnoc(disk, self, body, citations[..n], citations[n]);
  }

  /** What the path leads to is the record of a fold. */
  predicate IsFold(disk: Disk, path: string) {
    match ReadEvidence(disk, path)
    case Err(_) => false
    case Ok(blob) => blob.Evidence? && blob.record.tool == RECONCILE
  }

  /** Two citations of one file make one row exactly if they are spelled alike or the file is the record of a fold. */
  lemma OneFileOneRowIff(disk: Disk, self: AgentId, body: string, p: string, q: string)
    requires CleanRelpath(p) == CleanRelpath(q) && Resolve(disk, self, p).Ok? && Resolve(disk, self, q).Ok?
    ensures |Rows(disk, self, body, [p, q])| == 1 <==> p == q || IsFold(disk, p)
  {
    var one, other := Row(self, body, Resolve(disk, self, p).value), Row(self, body, Resolve(disk, self, q).value);
    forall c ensures c in [p, q] <==> c == p || c == q {
    }
    assert Rows(disk, self, body, [p, q]) == {one, other};
    if one != other {
      assert |{one, other} - {one}| == 1;
    } else {
      assert {one, other} == {one};
    }
  }

  /** Any citation of a tool's record can be spelled another way, and then counts twice. */
  lemma RespelledCitationCountsTwice(disk: Disk, self: AgentId, body: string, path: string)
    requires Resolve(disk, self, path).Ok? && !IsFold(disk, path)
    ensures AllResolve(disk, self, [path, "./" + path])
    ensures |Rows(disk, self, body, [path, "./" + path])| == 2
  {
    RespelledIsTheSame(path);
    assert Resolve(disk, self, "./" + path).Ok?;
    var one := Row(self, body, Resolve(disk, self, path).value);
    var other := Row(self, body, Resolve(disk, self, "./" + path).value);
    forall c ensures c in [path, "./" + path] <==> c == path || c == "./" + path {
    }
    assert Rows(disk, self, body, [path, "./" + path]) == {one, other};
    assert |{one, other} - {one}| == 1;
  }

  /** An instance: one tool record, cited in two spellings, gives two rows. */
  lemma OneRecordTwoRows(self: AgentId, body: string)
    ensures
      var p := "evidence/" + "abc.json";
      var disk: Disk := map[p := Evidence(Record("abc", "echo", None, "", 0))];
      |Rows(disk, self, body, [p, "./" + p])| == 2
  {
    var p := "evidence/" + "abc.json";
    var record := Record("abc", "echo", None, "", 0);
    var disk: Disk := map[p := Evidence(record)];
    EvidencePathIsClean("abc.json");
    assert ReadEvidence(disk, p) == Ok(Evidence(record));
    RespelledCitationCountsTwice(disk, self, body, p);
  }

  // --- Folding children -----------------------------------------------------------------------------------

  datatype Source = Source(child: AgentId, workflow: string, outputId: string)

  /** The evidence id of a fold, as a function of its arguments and of the body that was read. */
  type FoldId = f: (Source, string) -> string | forall s, b :: |f(s, b)| >= 8 && SlashFree(f(s, b))
    witness (s: Source, b: string) => "00000000"

  function FoldRecord(id: FoldId, source: Source, body: string, now: int): Record {
    Record(id(source, body), RECONCILE, Some(Fold(source.child, Sha(Text(body)))), body, now)
  }

  function FoldFilename(id: FoldId, source: Source, body: string): string {
    EvidenceFilename("reconcile " + source.workflow, id(source, body))
  }

  function WriteFold(disk: Disk, id: FoldId, source: Source, body: string, now: int): Disk {
    RecordEvidence(disk, FoldFilename(id, source, body), FoldRecord(id, source, body, now), now)
  }

  function WriteFolds(disk: Disk, id: FoldId, sources: seq<Source>, bodies: seq<string>, now: int): Disk
    requires |sources| == |bodies|
    decreases |sources|
  {
    if sources == [] then disk
    else WriteFolds(WriteFold(disk, id, sources[0], bodies[0], now), id, sources[1..], bodies[1..], now)
  }

  lemma RecordKeepsEvidence(disk: Disk, filename: string, record: Record, now: int)
    requires filename != "_tail.json"
    ensures EvidenceKept(disk, RecordEvidence(disk, filename, record, now))
    ensures "evidence/" + filename in RecordEvidence(disk, filename, record, now)
    ensures At(RecordEvidence(disk, filename, record, now), OUTPUT) == At(disk, OUTPUT)
  {
    assert ("evidence/" + filename)[9..] == filename && EvidenceDir.TailKey()[9..] == "_tail.json";
    assert OUTPUT[0] != ("evidence/" + filename)[0] && OUTPUT[0] != EvidenceDir.TailKey()[0];
  }

  lemma FoldFilenameIsFree(id: FoldId, source: Source, body: string)
    ensures FoldFilename(id, source, body) != "_tail.json"
  {
    assert |FoldFilename(id, source, body)| >= 13;
  }

  lemma EvidencePathIsClean(f: string)
    requires SlashFree(f) && |f| > 2 && f != "_tail.json"
    ensures CitedKey("evidence/" + f) == Ok("evidence/" + f)
  {
    assert "evidence/" == "evidence" + "/";
    TwoPartsAreClean("evidence", f);
    assert ("evidence/" + f)[9..] == f && EvidenceDir.TailKey()[9..] == "_tail.json";
  }

  lemma FoldFilenameIsSlashFree(id: FoldId, source: Source, body: string)
    ensures SlashFree(FoldFilename(id, source, body)) && |FoldFilename(id, source, body)| > 2
  {
    var slug := Slugs.SlugOf("reconcile " + source.workflow);
    Slugs.SlugsAreFixpoints("reconcile " + source.workflow);
    assert SlashFree(slug) && SlashFree(id(source, body)[..8]) && SlashFree(".json");
  }

  /**
   Citing the path a fold returns pins the version the fold read, unless that path, which ends in eight characters
   of the id, already held a record that pins something else.
   */
  lemma FoldPinsWhatItRead(disk: Disk, self: AgentId, id: FoldId, source: Source, body: string, now: int)
    ensures var path := FoldPath(id, source, body);
      var pinned := Ok(Pin(source.child, OUTPUT, Sha(Text(body))));
      Resolve(WriteFold(disk, id, source, body, now), self, path) == pinned
      <==> path !in disk || Resolve(disk, self, path) == pinned
  {
    var f := FoldFilename(id, source, body);
    FoldFilenameIsFree(id, source, body);
    FoldFilenameIsSlashFree(id, source, body);
    EvidencePathIsClean(f);
    assert ("evidence/" + f)[9..] == f && EvidenceDir.TailKey()[9..] == "_tail.json";
  }

  /** Folding adds evidence only: nothing cited before changes its pin, and every fold has a record at its path. */
  lemma {:induction false} FoldsKeepEvidence(
    disk: Disk, id: FoldId, sources: seq<Source>, bodies: seq<string>, now: int)
    requires |sources| == |bodies|
    ensures EvidenceKept(disk, WriteFolds(disk, id, sources, bodies, now))
    ensures forall i :: 0 <= i < |sources| ==>
      FoldPath(id, sources[i], bodies[i]) in WriteFolds(disk, id, sources, bodies, now)
    decreases |sources|
  {
    if sources != [] {
      FoldFilenameIsFree(id, sources[0], bodies[0]);
      var f := FoldFilename(id, sources[0], bodies[0]);
      RecordKeepsEvidence(disk, f, FoldRecord(id, sources[0], bodies[0], now), now);
      FoldsKeepEvidence(WriteFold(disk, id, sources[0], bodies[0], now), id, sources[1..], bodies[1..], now);
      assert StartsWith("evidence/" + f, "evidence/");
      assert ("evidence/" + f)[9..] == f && EvidenceDir.TailKey()[9..] == "_tail.json";
      forall i | 0 <= i < |sources|
        ensures FoldPath(id, sources[i], bodies[i]) in WriteFolds(disk, id, sources, bodies, now)
      {
        if i > 0 {
          assert sources[i] == sources[1..][i - 1] && bodies[i] == bodies[1..][i - 1];
        }
      }
    }
  }

  /** What recording makes of any other key: nothing; and an existing record stays. */
  lemma RecordingWrites(disk: Disk, filename: string, record: Record, now: int, key: string)
    requires key != EvidenceDir.TailKey()
    ensures At(RecordEvidence(disk, filename, record, now), key) ==
      if key == "evidence/" + filename && key !in disk then Some(Evidence(record)) else At(disk, key)
  {
  }

  function FoldPath(id: FoldId, source: Source, body: string): string {
    "evidence/" + FoldFilename(id, source, body)
  }

  /**
   A path that was free holds, after all folds, the record of the first fold that leads there: its id, the child at
   the version that was read, the body itself and the time of the fold.
   */
  lemma {:induction false} FirstFoldIsKept(
    disk: Disk, id: FoldId, sources: seq<Source>, bodies: seq<string>, now: int, i: nat)
    requires |sources| == |bodies| && i < |sources|
    requires forall j :: 0 <= j < i ==> FoldPath(id, sources[j], bodies[j]) != FoldPath(id, sources[i], bodies[i])
    ensures var path, body := FoldPath(id, sources[i], bodies[i]), bodies[i];
      At(WriteFolds(disk, id, sources, bodies, now), path) ==
        if path in disk then Some(disk[path])
        else Some(Evidence(Record(id(sources[i], body), RECONCILE,
                                  Some(Fold(sources[i].child, Sha(Text(body)))), body, now)))
    decreases |sources|
  {
    var path, first := FoldPath(id, sources[i], bodies[i]), FoldFilename(id, sources[0], bodies[0]);
    var next := WriteFold(disk, id, sources[0], bodies[0], now);
    FoldPathIsEvidence(id, sources[i], bodies[i]);
    RecordingWrites(disk, first, FoldRecord(id, sources[0], bodies[0], now), now, path);
    if i == 0 {
      FoldsKeepEvidence(next, id, sources[1..], bodies[1..], now);
    } else {
      var sources', bodies' := sources[1..], bodies[1..];
      forall j | 0 <= j < i - 1 ensures FoldPath(id, sources'[j], bodies'[j]) != path {
        assert sources'[j] == sources[j + 1] && bodies'[j] == bodies[j + 1];
      }
      FirstFoldIsKept(next, id, sources', bodies', now, i - 1);
    }
  }

  lemma FoldPathIsEvidence(id: FoldId, source: Source, body: string)
    ensures StartsWith(FoldPath(id, source, body), "evidence/")
    ensures FoldPath(id, source, body) != EvidenceDir.TailKey()
  {
    var f := FoldFilename(id, source, body);
    FoldFilenameIsFree(id, source, body);
    assert ("evidence/" + f)[9..] == f && EvidenceDir.TailKey()[9..] == "_tail.json";
  }

  /** A fold's record is named after the workflow it folds. */
  lemma FoldIsNamedAfterWorkflow(id: FoldId, source: Source, body: string)
    requires 0 < |Slugs.SlugOf(source.workflow)| <= 70
    ensures FoldFilename(id, source, body)
      == "reconcile-" + Slugs.SlugOf(source.workflow) + "-" + id(source, body)[..8] + ".json"
  {
    FoldSlug(source.workflow);
  }

  lemma FoldSlug(workflow: string)
    requires 0 < |Slugs.SlugOf(workflow)| <= 70
    ensures Slugs.SlugOf("reconcile " + workflow) == "reconcile-" + Slugs.SlugOf(workflow)
  {
    Slugs.SlugAfterWord("reconcile", workflow);
    assert "reconcile" + " " == "reconcile " && "reconcile" + "-" == "reconcile-";
  }

  /** How many leading citations have a record that parses. */
  function ReadablePrefix(disk: Disk, self: AgentId, citations: seq<string>): (n: nat)
    ensures n <= |citations|
  {
    if citations == [] || Resolve(disk, self, citations[0]).Err? then 0
    else 1 + ReadablePrefix(disk, self, citations[1..])
  }

  lemma {:induction false} PrefixResolves(disk: Disk, self: AgentId, citations: seq<string>, i: nat)
    requires i < ReadablePrefix(disk, self, citations)
    ensures Resolve(disk, self, citations[i]).Ok?
  {
    if i > 0 {
      PrefixResolves(disk, self, citations[1..], i - 1);
    }
  }

  lemma {:induction false} PrefixStops(disk: Disk, self: AgentId, citations: seq<string>, n: nat)
    requires n == ReadablePrefix(disk, self, citations) && n < |citations|
    ensures Resolve(disk, self, citations[n]).Err?
  {
    if n > 0 {
      PrefixStops(disk, self, citations[1..], n - 1);
    }
  }

  /** The prefix ends at the first citation that does not resolve, if there is one. */
  lemma PrefixFacts(disk: Disk, self: AgentId, citations: seq<string>)
    ensures var n := ReadablePrefix(disk, self, citations);
      && (forall i :: 0 <= i < n ==> Resolve(disk, self, citations[i]).Ok?)
      && (n < |citations| ==> Resolve(disk, self, citations[n]).Err?)
    ensures ReadablePrefix(disk, self, citations) == |citations| <==> AllResolve(disk, self, citations)
  {
    var n := ReadablePrefix(disk, self, citations);
    forall i | 0 <= i < n ensures Resolve(disk, self, citations[i]).Ok? {
      PrefixResolves(disk, self, citations, i);
    }
    if n < |citations| {
      PrefixStops(disk, self, citations, n);
      assert citations[n] in citations;
    }
  }

  /** Writing the output changes no citation's resolution. */
  lemma OutputIsNoEvidence(disk: Disk, self: AgentId, body: string, citations: seq<string>)
    ensures ReadablePrefix(disk[OUTPUT := Text(body)], self, citations) == ReadablePrefix(disk, self, citations)
    ensures forall n :: 0 <= n <= |citations| ==>
      Rows(disk[OUTPUT := Text(body)], self, body, citations[..n]) == Rows(disk, self, body, citations[..n])
  {
    var disk' := disk[OUTPUT := Text(body)];
    forall c ensures Resolve(disk', self, c) == Resolve(disk, self, c) {
      assert OUTPUT[0] != "evidence/"[0];
    }
    SamePrefix(disk, disk', self, citations);
  }

  lemma {:induction false} SamePrefix(disk: Disk, disk': Disk, self: AgentId, citations: seq<string>)
    requires forall c :: Resolve(disk', self, c) == Resolve(disk, self, c)
    ensures ReadablePrefix(disk', self, citations) == ReadablePrefix(disk, self, citations)
  {
    if citations != [] {
      SamePrefix(disk, disk', self, citations[1..]);
    }
  }

  lemma AllResolveHasNoFault(disk: Disk, self: AgentId, citations: seq<string>)
    requires AllResolve(disk, self, citations)
    ensures FirstFault(disk, citations).None?
  {
    NoFaultMeansAllResolve(disk, citations);
    assert forall c :: c in citations ==> Resolve(disk, self, c).Ok?;
  }

  // --- The two operations on the stores -------------------------------------------------------------------

  datatype Attempt = Persisted(version: Sha) | Rejected(error: FsError) | Crashed

  class TwoStores {
    var disks: map<AgentId, Disk>
    var index: map<(AgentId, string), Sha>
    var citations: set<Citation>

    function Contents(): Stores
      reads this
    {
      Stores(disks, index, citations)
    }

    /**
     One attempt at persisting an output that dies after `limit` writes, or at the first citation whose record does
     not parse. A citation that does not resolve is turned down before the first write.
     */
    method PersistOutput(a: AgentId, body: string, cited: seq<string>, limit: nat) returns (r: Attempt)
      modifies this
      ensures r.Rejected? <==> OutputFault(old(Contents()).DiskOf(a), cited).Some?
      ensures r.Rejected? ==> Contents() == old(Contents()) && OutputFault(Contents().DiskOf(a), cited) == Some(r.error)
      ensures !r.Rejected? ==>
        var readable := ReadablePrefix(old(Contents()).DiskOf(a), a, cited);
        && Contents() == AfterWrites(old(Contents()), a, body, cited, Min(limit, 2 + readable))
        && (r.Persisted? <==> limit >= 2 + |cited| && readable == |cited|)
      ensures r.Persisted? ==> Publishes(old(Contents()), Contents(), a, body, cited, r.version)
    {
      var fault := OutputFault(Contents().DiskOf(a), cited);
      if fault.Some? {
        return Rejected(fault.value);
      }
      PrefixFacts(Contents().DiskOf(a), a, cited);
      if AllResolve(Contents().DiskOf(a), a, cited) {
        UninterruptedPublishes(Contents(), a, body, cited);
      }
      var written := WriteUpTo(a, body, cited, limit);
      r := if written == 2 + |cited| then Persisted(Sha(Text(body))) else Crashed;
    }

    /** The first writes of an attempt, and how many got done. */
    method WriteUpTo(a: AgentId, body: string, cited: seq<string>, limit: nat) returns (written: nat)
      modifies this
      ensures written == Min(limit, 2 + ReadablePrefix(old(Contents()).DiskOf(a), a, cited))
      ensures Contents() == AfterWrites(old(Contents()), a, body, cited, written)
    {
      ghost var s := Contents();
      FewWrites(s, a, body, cited);
      if limit == 0 {
        return 0;
      }
      FileAndIndex(a, body, limit);
      if limit == 1 {
        return 1;
      }
      var done := WriteRows(s, a, body, cited, limit - 2);
      written := 2 + done;
    }

    /** The rows after the file and the index. */
    method WriteRows(ghost s: Stores, a: AgentId, body: string, cited: seq<string>, limit: nat) returns (done: nat)
      requires Contents() == AfterWrites(s, a, body, [], 2)
      modifies this`citations
      ensures done == Min(limit, ReadablePrefix(s.DiskOf(a), a, cited))
      ensures Contents() == AfterWrites(s, a, body, cited, 2 + done)
    {
      ghost var t := Contents();
      OutputIsNoEvidence(s.DiskOf(a), a, body, cited);
      done := AddRows(a, body, cited, limit);
      RowsComeLast(s, t, a, body, cited, done);
    }

    method FileAndIndex(a: AgentId, body: string, limit: nat)
      requires limit >= 1
      modifies this`disks, this`index
      ensures Contents() == AfterWrites(old(Contents()), a, body, [], Min(limit, 2))
    {
      disks := disks[a := Contents().DiskOf(a)[OUTPUT := Text(body)]];
      if limit == 1 {
        return;
      }
      index := index[(a, OUTPUT) := Sha(Text(body))];
    }

    /** Rows are added one by one until the limit, or until a citation does not parse. */
    method AddRows(a: AgentId, body: string, cited: seq<string>, limit: nat) returns (done: nat)
      modifies this`citations
      ensures done == Min(limit, ReadablePrefix(old(Contents()).DiskOf(a), a, cited))
      ensures citations == old(citations) + Rows(old(Contents()).DiskOf(a), a, body, cited[..done])
    {
      var disk := Contents().DiskOf(a);
      ghost var readable := ReadablePrefix(disk, a, cited);
      PrefixFacts(disk, a, cited);
      done := 0;
      while done < |cited| && done < limit
        invariant done <= limit && done <= readable
        invariant readable < |cited| ==> Resolve(disk, a, cited[readable]).Err?
        invariant citations == old(citations) + Rows(disk, a, body, cited[..done])
      {
        var pin := Resolve(disk, a, cited[done]);
        if pin.Err? {
          return;
        }
        assert done != readable;
        RowsSnoc(disk, a, body, cited, done);
        JoinOne(old(citations), Rows(disk, a, body, cited[..done]), Row(a, body, pin.value));
        citations := citations + {Row(a, body, pin.value)};
        done := done + 1;
      }
    }

    /** All children are read before anything is written; one missing output and nothing is. */
    method ReconcileChildren(id: FoldId, parent: AgentId, sources: seq<Source>, now: int)
      returns (r: Result<seq<string>, Source>)
      modifies this`disks
      ensures r.Ok? <==> forall source :: source in sources ==> HasOutput(old(Contents()), source.child)
      ensures r.Err? ==>
        (exists i :: FirstWithout(Contents(), sources, i, r.error)) && Contents() == old(Contents())
      ensures r.Ok? ==>
        var before := old(Contents());
        Contents().DiskOf(parent) == WriteFolds(before.DiskOf(parent), id, sources, OutputBodies(before, sources), now)
      ensures forall other :: other != parent ==> Contents().DiskOf(other) == old(Contents()).DiskOf(other)
      ensures r.Ok? ==> r.value == FoldPaths(id, sources, OutputBodies(old(Contents()), sources))
    {
      var read := ReadChildren(sources);
      if read.Err? {
        return Err(read.error);
      }
      var paths := RecordFolds(id, parent, sources, read.value, now);
      r := Ok(paths);
    }

    method ReadChildren(sources: seq<Source>) returns (r: Result<seq<string>, Source>)
      ensures r.Ok? <==> forall source :: source in sources ==> HasOutput(Contents(), source.child)
      ensures r.Err? ==> exists i :: FirstWithout(Contents(), sources, i, r.error)
      ensures r.Ok? ==> r.value == OutputBodies(Contents(), sources)
    {
      var bodies := [];
      for i := 0 to |sources|
        invariant forall source :: source in sources[..i] ==> HasOutput(Contents(), source.child)
        invariant bodies == OutputBodies(Contents(), sources[..i])
      {
        if !HasOutput(Contents(), sources[i].child) {
          assert forall k :: 0 <= k < i ==> sources[k] in sources[..i];
          assert FirstWithout(Contents(), sources, i, sources[i]);
          return Err(sources[i]);
        }
        bodies := bodies + [BodyOf(Contents(), sources[i].child)];
        assert sources[..i + 1] == sources[..i] + [sources[i]];
      }
      assert sources[..|sources|] == sources;
      r := Ok(bodies);
    }

    method RecordFolds(id: FoldId, parent: AgentId, sources: seq<Source>, bodies: seq<string>, now: int)
      returns (paths: seq<string>)
      requires |sources| == |bodies|
      modifies this`disks
      ensures Contents().DiskOf(parent) == WriteFolds(old(Contents()).DiskOf(parent), id, sources, bodies, now)
      ensures forall other :: other != parent ==> Contents().DiskOf(other) == old(Contents()).DiskOf(other)
      ensures paths == FoldPaths(id, sources, bodies)
    {
      paths := [];
      for i := 0 to |sources|
        invariant forall other :: other != parent ==> Contents().DiskOf(other) == old(Contents()).DiskOf(other)
        invariant WriteFolds(Contents().DiskOf(parent), id, sources[i..], bodies[i..], now)
               == WriteFolds(old(Contents()).DiskOf(parent), id, sources, bodies, now)
        invariant paths == FoldPaths(id, sources[..i], bodies[..i])
      {
        NextFold(Contents().DiskOf(parent), id, sources, bodies, now, i);
        FoldPathsSnoc(id, sources, bodies, i);
        disks := disks[parent := WriteFold(Contents().DiskOf(parent), id, sources[i], bodies[i], now)];
        paths := paths + [FoldPath(id, sources[i], bodies[i])];
      }
      assert sources[..|sources|] == sources && bodies[..|bodies|] == bodies;
    }
  }

  lemma NextFold(disk: Disk, id: FoldId, sources: seq<Source>, bodies: seq<string>, now: int, i: nat)
    requires i < |sources| == |bodies|
    ensures WriteFolds(disk, id, sources[i..], bodies[i..], now)
      == WriteFolds(WriteFold(disk, id, sources[i], bodies[i], now), id, sources[i + 1..], bodies[i + 1..], now)
  {
    assert sources[i..][1..] == sources[i + 1..] && bodies[i..][1..] == bodies[i + 1..];
  }

  /** Before the rows the citations play no part. */
  lemma FewWrites(s: Stores, a: AgentId, body: string, cited: seq<string>)
    ensures AfterWrites(s, a, body, cited, 0) == s
    ensures AfterWrites(s, a, body, cited, 1) == AfterWrites(s, a, body, [], 1)
    ensures AfterWrites(s, a, body, cited, 2) == AfterWrites(s, a, body, [], 2)
  {
  }

  /** The file, the index and the first `n` rows are the first `2 + n` writes. */
  lemma RowsComeLast(s: Stores, t: Stores, a: AgentId, body: string, cited: seq<string>, n: nat)
    requires n <= |cited| && t == AfterWrites(s, a, body, [], 2)
    requires Rows(t.DiskOf(a), a, body, cited[..n]) == Rows(s.DiskOf(a), a, body, cited[..n])
    ensures t.(citations := t.citations + Rows(t.DiskOf(a), a, body, cited[..n]))
      == AfterWrites(s, a, body, cited, 2 + n)
  {
    assert n == 0 ==> Rows(s.DiskOf(a), a, body, cited[..n]) == {};
  }

  lemma JoinOne<T>(base: set<T>, some: set<T>, x: T)
    ensures base + some + {x} == base + (some + {x})
  {
  }

  predicate HasOutput(s: Stores, a: AgentId) {
    OUTPUT in s.DiskOf(a) && s.DiskOf(a)[OUTPUT].Text?
  }

  /** The source at `i` is the first whose child has no output. */
  ghost predicate FirstWithout(s: Stores, sources: seq<Source>, i: int, source: Source) {
    && 0 <= i < |sources| && sources[i] == source && !HasOutput(s, source.child)
    && forall k :: 0 <= k < i ==> HasOutput(s, sources[k].child)
  }

  function BodyOf(s: Stores, a: AgentId): string {
    if HasOutput(s, a) then s.DiskOf(a)[OUTPUT].text else ""
  }

  function OutputBodies(s: Stores, sources: seq<Source>): (r: seq<string>) {
    seq(|sources|, i requires 0 <= i < |sources| => BodyOf(s, sources[i].child))
  }

  function FoldPaths(id: FoldId, sources: seq<Source>, bodies: seq<string>): seq<string>
    requires |sources| == |bodies|
  {
    seq(|sources|, i requires 0 <= i < |sources| => FoldPath(id, sources[i], bodies[i]))
  }

  lemma FoldPathsSnoc(id: FoldId, sources: seq<Source>, bodies: seq<string>, i: nat)
    requires i < |sources| == |bodies|
    ensures FoldPaths(id, sources[..i + 1], bodies[..i + 1])
         == FoldPaths(id, sources[..i], bodies[..i]) + [FoldPath(id, sources[i], bodies[i])]
  {
  }
}
