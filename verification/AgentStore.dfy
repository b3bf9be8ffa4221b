/**
 One agent's files as a map from keys to contents, and the state changes the agent filesystem makes to it. Content
 addresses are injective: a `Sha` stands for the content it was computed from.
 */
module AgentStore {
  import opened Wrappers
  import opened Sorting
  import opened Paths
  import opened RecencyTail
  import Slugs

  type AgentId = string

  datatype Sha = Sha(content: Blob)

  /** What a reconcile record remembers of the child output it folded. */
  datatype Fold = Fold(child: AgentId, childSha: Sha)

  /** An evidence record; `fold` is its parsed child pin, which only reconcile records carry. */
  datatype Record = Record(id: string, tool: string, fold: Option<Fold>, payload: string, createdAt: int)

  datatype Blob = Text(text: string) | Evidence(record: Record) | Index(entries: seq<TailEntry>)

  type Disk = map<string, Blob>

  const OUTPUT := "outputs/output.md"
  const RECONCILE := "reconcile"

  /** The two indexed directories. */
  datatype Directory = EvidenceDir | NotesDir {
    function Prefix(): string {
      match this
      case EvidenceDir => "evidence/"
      case NotesDir => "notes/"
    }

    function TailKey(): string {
      Prefix() + "_tail.json"
    }

    predicate IsRecord(f: string) {
      match this
      case EvidenceDir => EndsWith(f, ".json") && f != "_tail.json"
      case NotesDir => f != "_tail.json" && !EndsWith(f, "/_tail.json")
    }

    /** The record files of this directory, named relative to it. */
    function Files(disk: Disk): (r: set<string>)
      ensures forall f :: f in r <==> Prefix() + f in disk && IsRecord(f)
    {
      var r := set k | k in disk.Keys && StartsWith(k, Prefix()) && IsRecord(k[|Prefix()|..]) :: k[|Prefix()|..];
      assert forall k :: StartsWith(k, Prefix()) ==> k == Prefix() + k[|Prefix()|..];
      assert forall f :: StartsWith(Prefix() + f, Prefix()) && (Prefix() + f)[|Prefix()|..] == f;
      r
    }

    /** The stored index; an absent or unreadable one counts as empty. */
    function Tail(disk: Disk): seq<TailEntry> {
      if TailKey() in disk && disk[TailKey()].Index? then disk[TailKey()].entries else []
    }
  }

  // --- Index updates --------------------------------------------------------------------------------------

  function AppendToTail(disk: Disk, dir: Directory, f: string, now: int): Disk {
    disk[dir.TailKey() := Index(Appended(dir.Tail(disk), f, now))]
  }

  function RemoveFromTail(disk: Disk, dir: Directory, f: string): Disk {
    var kept := Without(dir.Tail(disk), f);
    if |kept| == |dir.Tail(disk)| then disk else disk[dir.TailKey() := Index(kept)]
  }

  // --- Evidence -------------------------------------------------------------------------------------------

  /** Slug of the seed plus the first eight characters of the id. */
  function EvidenceFilename(slugSeed: string, id: string): string
    requires |id| >= 8
  {
    Stem(Slugs.SlugOf(slugSeed)) + id[..8] + ".json"
  }

  function EvidenceRelpath(slugSeed: string, id: string): string
    requires |id| >= 8
  {
    EvidenceDir.Prefix() + EvidenceFilename(slugSeed, id)
  }

  /** Two records share a path exactly if the slugs of their seeds and the first eight characters of their ids agree. */
  lemma OnePathIff(seed: string, id: string, seed': string, id': string)
    requires |id| >= 8 && |id'| >= 8
    ensures EvidenceRelpath(seed, id) == EvidenceRelpath(seed', id')
       <==> Slugs.SlugOf(seed) == Slugs.SlugOf(seed') && id[..8] == id'[..8]
  {
    var p, q := EvidenceRelpath(seed, id), EvidenceRelpath(seed', id');
    PathEnds(p, "evidence/" + Stem(Slugs.SlugOf(seed)), id[..8]);
    PathEnds(q, "evidence/" + Stem(Slugs.SlugOf(seed')), id'[..8]);
    if p == q {
      var a, b := "evidence/" + Stem(Slugs.SlugOf(seed)), "evidence/" + Stem(Slugs.SlugOf(seed'));
      assert a == p[..|p| - 13] == b;
      assert Stem(Slugs.SlugOf(seed)) == a[9..] == b[9..] == Stem(Slugs.SlugOf(seed'));
      StemTellsSlugs(Slugs.SlugOf(seed), Slugs.SlugOf(seed'));
    }
  }

  /** A record is named after the words of its seed, as far as they fit, and by its id alone if there are none. */
  lemma EvidenceIsNamedAfterItsSeed(seed: string, id: string)
    requires |id| >= 8 && |Slugs.Kebab(Slugs.Words(seed))| <= 80
    ensures EvidenceFilename(seed, id) ==
      if Slugs.Words(seed) == [] then id[..8] + ".json" else Slugs.Kebab(Slugs.Words(seed)) + "-" + id[..8] + ".json"
  {
    Slugs.SlugIsItsWords(seed);
    Slugs.WordsAreWords(seed);
    if Slugs.Words(seed) != [] {
      Slugs.KebabEndsInLetter(Slugs.Words(seed));
    } else {
      assert "" + id[..8] + ".json" == id[..8] + ".json";
    }
  }

  function Stem(slug: string): string {
    if slug == "" then "" else slug + "-"
  }

  lemma StemTellsSlugs(a: string, b: string)
    requires Stem(a) == Stem(b)
    ensures a == b
  {
    if a != "" && b != "" {
      assert a == Stem(a)[..|a|] && b == Stem(b)[..|b|];
    }
  }

  lemma PathEnds(p: string, front: string, id: string)
    requires |id| == 8 && p == front + id + ".json"
    ensures |p| == |front| + 13 && p[..|p| - 13] == front && p[|p| - 13..|p| - 5] == id
  {
  }

  /** First write wins; only a first write touches the index. */
  function RecordEvidence(disk: Disk, filename: string, record: Record, now: int): Disk {
    var key := EvidenceDir.Prefix() + filename;
    if key in disk then disk
    else AppendToTail(disk[key := Evidence(record)], EvidenceDir, filename, now)
  }

  /** Where a citation points: a cleaned path inside `evidence/`, not the index. */
  function CitedKey(path: string): Result<string, FsError> {
    match CleanRelpath(path)
    case Err(e) => Err(e)
    case Ok(rel) =>
      if !StartsWith(rel, EvidenceDir.Prefix()) || rel == EvidenceDir.TailKey() then Err(CitationNotEvidence(path))
      else Ok(rel)
  }

  function ReadEvidence(disk: Disk, path: string): Result<Blob, FsError> {
    match CitedKey(path)
    case Err(e) => Err(e)
    case Ok(rel) => if rel in disk then Ok(disk[rel]) else Err(EvidenceNotFound(path))
  }

  /** The path is absolute or climbs out of its directory. */
  ghost predicate Escapes(path: string) {
    (path != "" && path[0] == '/') || ".." in Split(path)
  }

  /** The pieces that count, empty ones and `.` left out, lead into `evidence/`, and not to the index. */
  ghost predicate LeadsIntoEvidence(path: string) {
    var parts := Components(path);
    |parts| > 1 && parts[0] == "evidence" && parts != ["evidence", "_tail.json"]
  }

  /** A citation fails for the first of three reasons, and the error names the path as it was spelled. */
  lemma WhyCitationFails(disk: Disk, path: string)
    ensures match ReadEvidence(disk, path)
            case Err(PathTraversal(p)) => p == path && Escapes(path)
            case Err(CitationNotEvidence(p)) => p == path && !Escapes(path) && !LeadsIntoEvidence(path)
            case Err(EvidenceNotFound(p)) =>
              p == path && !Escapes(path) && LeadsIntoEvidence(path) && Join(Components(path)) !in disk
            case Err(_) => false
            case Ok(blob) =>
              && !Escapes(path) && LeadsIntoEvidence(path)
              && Join(Components(path)) in disk && blob == disk[Join(Components(path))]
  {
    var parts := Components(path);
    FilterKeeps(Split(path), IsNormal);
    ComponentsOfJoin(path);
    if parts != [] {
      InsideDirectory(parts, "evidence");
      assert "evidence" + "/" == EvidenceDir.Prefix();
      OnlyTailIsTail(parts);
    }
  }

  lemma OnlyTailIsTail(parts: seq<string>)
    requires parts != [] && AllSlashFree(parts)
    ensures Join(parts) == EvidenceDir.TailKey() <==> parts == ["evidence", "_tail.json"]
  {
    var tail := ["evidence", "_tail.json"];
    assert tail[1..] == ["_tail.json"] && Join(tail) == "evidence" + "/" + "_tail.json";
    assert EvidenceDir.TailKey() == Join(tail);
    SplitOfJoin(parts);
    SplitOfJoin(tail);
  }

  // --- Output ---------------------------------------------------------------------------------------------

  /** The first citation that does not resolve, if any. */
  function FirstFault(disk: Disk, citations: seq<string>): Option<FsError> {
    if citations == [] then None
    else
      match ReadEvidence(disk, citations[0])
      case Err(e) => Some(e)
      case Ok(_) => FirstFault(disk, citations[1..])
  }

  function OutputFault(disk: Disk, citations: seq<string>): Option<FsError> {
    if citations == [] then Some(EmptyEvidence) else FirstFault(disk, citations)
  }

  lemma FaultStep(disk: Disk, citations: seq<string>, i: nat)
    requires i < |citations|
    ensures FirstFault(disk, citations[i..]) ==
      match ReadEvidence(disk, citations[i])
      case Err(e) => Some(e)
      case Ok(_) => FirstFault(disk, citations[i + 1..])
  {
    assert citations[i..][1..] == citations[i + 1..];
  }

  /** The fault reported is that of the first citation that fails. */
  lemma {:induction false} FirstFaultIsFirst(disk: Disk, citations: seq<string>, fault: FsError)
    requires FirstFault(disk, citations) == Some(fault)
    ensures exists i :: FailsFirst(disk, citations, i, fault)
  {
    if ReadEvidence(disk, citations[0]).Err? {
      assert FailsFirst(disk, citations, 0, fault);
    } else {
      var rest := citations[1..];
      FirstFaultIsFirst(disk, rest, fault);
      var i :| FailsFirst(disk, rest, i, fault);
      assert forall j :: 0 < j < |citations| ==> citations[j] == rest[j - 1];
      assert FailsFirst(disk, citations, i + 1, fault);
    }
  }

  ghost predicate FailsFirst(disk: Disk, citations: seq<string>, i: int, fault: FsError) {
    && 0 <= i < |citations| && ReadEvidence(disk, citations[i]) == Err(fault)
    && forall j :: 0 <= j < i ==> ReadEvidence(disk, citations[j]).Ok?
  }

  lemma {:induction false} NoFaultMeansAllResolve(disk: Disk, citations: seq<string>)
    ensures FirstFault(disk, citations).None? <==> forall c :: c in citations ==> ReadEvidence(disk, c).Ok?
  {
    if citations != [] {
      NoFaultMeansAllResolve(disk, citations[1..]);
      assert forall c :: c in citations <==> c == citations[0] || c in citations[1..];
    }
  }

  // --- Notes ----------------------------------------------------------------------------------------------

  datatype FsOp = WriteFile(path: string, content: string) | DeleteFile(path: string)

  /** The key an operation may touch, if any. */
  function PlanKey(op: FsOp): (r: Result<string, FsError>)
    ensures r.Ok? ==> StartsWith(r.value, "notes/") && NotesDir.IsRecord(r.value[6..]) && r.value != NotesDir.TailKey()
  {
    match ResolveNotesKey(op.path)
    case Err(e) => Err(e)
    case Ok(key) =>
      assert key == "notes/" + key[6..];
      if !NotesDir.IsRecord(key[6..]) then Err(ReservedNotesPath(op.path))
      else
        assert NotesDir.TailKey()[6..] == "_tail.json";
        Ok(key)
  }

  /** An operation is turned down for the first of three reasons, and the error names the path as it was spelled. */
  lemma WhyOpIsTurnedDown(op: FsOp)
    ensures var parts := Components(op.path);
      match PlanKey(op)
      case Err(PathTraversal(p)) => p == op.path && (Escapes(p) || parts == [])
      case Err(PathOutsideNotes(p)) =>
        p == op.path && !Escapes(p) && parts != [] && (parts[0] != "notes" || |parts| == 1)
      case Err(ReservedNotesPath(p)) =>
        && p == op.path && !Escapes(p) && |parts| > 1 && parts[0] == "notes" && parts[|parts| - 1] == "_tail.json"
      case Err(_) => false
      case Ok(key) =>
        && !Escapes(op.path) && |parts| > 1 && parts[0] == "notes" && parts[|parts| - 1] != "_tail.json"
        && key == Join(parts)
  {
    var parts := Components(op.path);
    FilterKeeps(Split(op.path), IsNormal);
    ComponentsOfJoin(op.path);
    if !Escapes(op.path) && |parts| > 1 && parts[0] == "notes" {
      InsideDirectory(parts, "notes");
      assert "notes" + "/" == "notes/";
      RecordUnlessTail(parts);
    }
  }

  lemma RecordUnlessTail(parts: seq<string>)
    requires |parts| > 1 && AllSlashFree(parts) && parts[0] == "notes"
    ensures |Join(parts)| >= 6 && (NotesDir.IsRecord(Join(parts)[6..]) <==> parts[|parts| - 1] != "_tail.json")
  {
    var rel, tail := Join(parts[1..]), "_tail.json";
    assert Join(parts) == ("notes" + "/") + rel;
    TailOfConcat("notes" + "/", rel);
    assert forall p :: p in parts[1..] ==> p in parts;
    EndsInLastPart(parts[1..], tail);
    assert parts[1..][|parts[1..]| - 1] == parts[|parts| - 1];
    assert "/" + tail == "/_tail.json";
    assert NotesDir.IsRecord(rel) <==> !(rel == tail || EndsWith(rel, "/" + tail));
  }

  /** A joined path ends in a file name exactly if that is its last part. */
  lemma EndsInLastPart(parts: seq<string>, name: string)
    requires parts != [] && AllSlashFree(parts) && SlashFree(name)
    ensures Join(parts) == name || EndsWith(Join(parts), "/" + name) <==> parts[|parts| - 1] == name
  {
    if Join(parts) == name || EndsWith(Join(parts), "/" + name) {
      EndTellsLastPart(parts, name);
    }
    if parts[|parts| - 1] == name {
      LastPartTellsEnd(parts, name);
    }
  }

  lemma EndTellsLastPart(parts: seq<string>, name: string)
    requires parts != [] && AllSlashFree(parts) && SlashFree(name)
    requires Join(parts) == name || EndsWith(Join(parts), "/" + name)
    ensures parts[|parts| - 1] == name
  {
    SplitOfJoin(parts);
    if Join(parts) == name {
      SplitPart(name, "");
    } else {
      CutEnd(Join(parts), name);
    }
  }

  lemma CutEnd(s: string, name: string)
    requires SlashFree(name) && EndsWith(s, "/" + name)
    ensures Split(s)[|Split(s)| - 1] == name
  {
    var front, end := s[..|s| - |"/" + name|], "/" + name;
    assert s == front + end;
    ConcatAssoc(front, "/", name);
    SplitSnoc(front, name);
  }

  lemma LastPartTellsEnd(parts: seq<string>, name: string)
    requires parts != [] && parts[|parts| - 1] == name
    ensures Join(parts) == name || EndsWith(Join(parts), "/" + name)
  {
    var front := parts[..|parts| - 1];
    assert parts == front + [name];
    if front != [] {
      JoinSnoc(front, name);
      ConcatAssoc(Join(front), "/", name);
    }
  }

  function ApplyOp(disk: Disk, op: FsOp, now: int): Disk
    requires PlanKey(op).Ok?
  {
    var key := PlanKey(op).value;
    match op
    case WriteFile(_, content) => AppendToTail(disk[key := Text(content)], NotesDir, key[6..], now)
    case DeleteFile(_) => RemoveFromTail(disk - {key}, NotesDir, key[6..])
  }

  ghost predicate AllPlanned(ops: seq<FsOp>) {
    forall op :: op in ops ==> PlanKey(op).Ok?
  }

  /** The operation at `i` is the first that may not be applied. */
  ghost predicate StopsPlan(ops: seq<FsOp>, i: int, fault: FsError) {
    && 0 <= i < |ops| && PlanKey(ops[i]) == Err(fault)
    && forall k :: 0 <= k < i ==> PlanKey(ops[k]).Ok?
  }

  ghost function ApplyAll(disk: Disk, ops: seq<FsOp>, now: int): Disk
    requires AllPlanned(ops)
    decreases |ops|
  {
    if ops == [] then disk else ApplyAll(ApplyOp(disk, ops[0], now), ops[1..], now)
  }

  ghost function NoteOps(ops: seq<FsOp>, now: int): (r: seq<NoteOp>)
    requires AllPlanned(ops)
    ensures |r| == |ops|
  {
    seq(|ops|, i requires 0 <= i < |ops| =>
      var rel := PlanKey(ops[i]).value[6..];
      if ops[i].WriteFile? then Write(rel, now) else Delete(rel))
  }

  /** What the last operation on `key` leaves there; `None` when the batch does not name it. */
  ghost function LastSay(ops: seq<FsOp>, key: string): Option<Option<Blob>>
    requires AllPlanned(ops)
  {
    if ops == [] then None
    else
      var last := ops[|ops| - 1];
      if PlanKey(last).value == key then Some(if last.WriteFile? then Some(Text(last.content)) else None)
      else LastSay(ops[..|ops| - 1], key)
  }

  function At(disk: Disk, key: string): Option<Blob> {
    if key in disk then Some(disk[key]) else None
  }

  lemma {:induction false} ApplySnoc(disk: Disk, ops: seq<FsOp>, op: FsOp, now: int)
    requires AllPlanned(ops + [op])
    ensures AllPlanned(ops) && PlanKey(op).Ok?
    ensures ApplyAll(disk, ops + [op], now) == ApplyOp(ApplyAll(disk, ops, now), op, now)
    decreases |ops|
  {
    assert op in ops + [op] && forall o :: o in ops ==> o in ops + [op];
    if ops == [] {
      assert [] + [op] == [op];
    } else {
      assert (ops + [op])[1..] == ops[1..] + [op];
      ApplySnoc(ApplyOp(disk, ops[0], now), ops[1..], op, now);
    }
  }

  /** An accepted batch leaves every key as its last word on it, and every key it does not name as it was. */
  lemma {:induction false} BatchIsLastWordPerKey(disk: Disk, ops: seq<FsOp>, now: int, key: string)
    requires AllPlanned(ops) && key != NotesDir.TailKey()
    ensures At(ApplyAll(disk, ops, now), key)
         == (if LastSay(ops, key).Some? then LastSay(ops, key).value else At(disk, key))
    decreases |ops|
  {
    if ops != [] {
      var front, last := ops[..|ops| - 1], ops[|ops| - 1];
      assert ops == front + [last];
      ApplySnoc(disk, front, last, now);
      BatchIsLastWordPerKey(disk, front, now, key);
      OpIsLocal(ApplyAll(disk, front, now), last, now, key);
    }
  }

  /** One operation sets or clears its own key and leaves every other alone, the index aside. */
  lemma OpIsLocal(disk: Disk, op: FsOp, now: int, key: string)
    requires PlanKey(op).Ok? && key != NotesDir.TailKey()
    ensures At(ApplyOp(disk, op, now), key) ==
      if PlanKey(op).value != key then At(disk, key) else if op.WriteFile? then Some(Text(op.content)) else None
  {
  }

  /** A batch never reaches outside `notes/`. */
  lemma {:induction false} BatchStaysInNotes(disk: Disk, ops: seq<FsOp>, now: int, key: string)
    requires AllPlanned(ops) && !StartsWith(key, "notes/")
    ensures At(ApplyAll(disk, ops, now), key) == At(disk, key)
    decreases |ops|
  {
    if ops != [] {
      assert StartsWith(NotesDir.TailKey(), "notes/");
      BatchStaysInNotes(ApplyOp(disk, ops[0], now), ops[1..], now, key);
    }
  }

  lemma OpMovesTail(disk: Disk, op: FsOp, now: int)
    requires PlanKey(op).Ok?
    ensures NotesDir.Tail(ApplyOp(disk, op, now)) == TailAfter(NotesDir.Tail(disk), NoteOps([op], now)[0])
  {
    var key := PlanKey(op).value;
    if op.DeleteFile? {
      WithoutSameLength(NotesDir.Tail(disk), key[6..]);
    }
  }

  lemma {:induction false} WithoutSameLength(es: seq<TailEntry>, f: string)
    ensures |Without(es, f)| <= |es|
    ensures |Without(es, f)| == |es| ==> Without(es, f) == es
  {
    if es != [] {
      WithoutSameLength(es[1..], f);
    }
  }
}
