/**
 Many agents over the two stores: tool calls, note rewrites, outputs and folds proceed one write at a time, in any
 interleaving, and any of them may crash and start again. The results hold in every reachable state.
 */
module ProvenanceRun {
  import opened Wrappers
  import opened Sorting
  import opened Paths
  import opened RecencyTail
  import opened AgentStore
  import opened Provenance

  /** An output being persisted; `done` writes of the current attempt have happened. */
  datatype Job = Job(body: string, citations: seq<string>, done: nat)

  /** A fold in progress: the bodies read and the records written by the current attempt. */
  datatype FoldJob = FoldJob(id: FoldId, sources: seq<Source>, now: int, read: seq<string>, written: nat)

  /** A body that was written to its agent's output path, and the citations it was accepted with. */
  datatype Publication = Publication(agent: AgentId, body: string, citations: seq<string>)

  datatype World = World(
    stores: Stores, jobs: map<AgentId, Job>, folds: map<AgentId, FoldJob>, published: set<Publication>)
  {
    function DiskOf(a: AgentId): Disk {
      stores.DiskOf(a)
    }
  }

  /** `PutIndex` stands for any index write, so a crash between a file and its index entry is covered too. */
  datatype Step =
    | CallTool(agent: AgentId, slugSeed: string, record: Record, now: int)
    | Rewrite(agent: AgentId, ops: seq<FsOp>, now: int)
    | PutIndex(agent: AgentId, dir: Directory, entries: seq<TailEntry>)
    | BeginPersist(agent: AgentId, body: string, citations: seq<string>)
    | PersistWrite(agent: AgentId)
    | CrashPersist(agent: AgentId)
    | FinishPersist(agent: AgentId)
    | RejectPersist(agent: AgentId)
    | BeginFold(agent: AgentId, id: FoldId, sources: seq<Source>, now: int)
    | ReadChild(agent: AgentId)
    | WriteFoldRecord(agent: AgentId)
    | CrashFold(agent: AgentId)
    | FinishFold(agent: AgentId)
    | RejectFold(agent: AgentId)

  ghost predicate Enabled(w: World, step: Step) {
    var a := step.agent;
    match step
    case CallTool(_, _, record, _) => |record.id| >= 8 && record.tool != RECONCILE
    case Rewrite(_, ops, _) => AllPlanned(ops)
    case PutIndex(_, _, _) => true
    case BeginPersist(_, _, _) => a !in w.jobs
    case PersistWrite(_) => a in w.jobs && CanWrite(w.DiskOf(a), a, w.jobs[a])
    case CrashPersist(_) => a in w.jobs
    case FinishPersist(_) => a in w.jobs && w.jobs[a].done == 2 + |w.jobs[a].citations|
    case RejectPersist(_) => a in w.jobs && w.jobs[a].done == 0 && OutputFault(w.DiskOf(a), w.jobs[a].citations).Some?
    case BeginFold(_, _, _, _) => a !in w.folds
    case ReadChild(_) =>
      && a in w.folds && |w.folds[a].read| < |w.folds[a].sources|
      && HasOutput(w.stores, NextChild(w.folds[a]))
    case WriteFoldRecord(_) =>
      a in w.folds && |w.folds[a].read| == |w.folds[a].sources| && w.folds[a].written < |w.folds[a].sources|
    case CrashFold(_) => a in w.folds
    case FinishFold(_) => a in w.folds && w.folds[a].written == |w.folds[a].sources|
    case RejectFold(_) =>
      && a in w.folds && |w.folds[a].read| < |w.folds[a].sources|
      && !HasOutput(w.stores, NextChild(w.folds[a]))
  }

  /** The attempt has a write left, and it is not stopped by a citation. */
  predicate CanWrite(disk: Disk, a: AgentId, job: Job) {
    if job.done == 0 then OutputFault(disk, job.citations).None?
    else if job.done == 1 then true
    else job.done < 2 + |job.citations| && Resolve(disk, a, job.citations[job.done - 2]).Ok?
  }

  function NextChild(fold: FoldJob): AgentId
    requires |fold.read| < |fold.sources|
  {
    fold.sources[|fold.read|].child
  }

  function OneWrite(s: Stores, a: AgentId, job: Job): Stores
    requires CanWrite(s.DiskOf(a), a, job)
  {
    if job.done == 0 then s.WithDisk(a, s.DiskOf(a)[OUTPUT := Text(job.body)])
    else if job.done == 1 then s.(index := s.index[(a, OUTPUT) := Sha(Text(job.body))])
    else s.(citations := s.citations + {Row(a, job.body, Resolve(s.DiskOf(a), a, job.citations[job.done - 2]).value)})
  }

  ghost function Apply(w: World, step: Step): World
    requires Enabled(w, step)
  {
    var a := step.agent;
    match step
    case CallTool(_, slugSeed, record, now) =>
      w.(stores := w.stores.WithDisk(a,
        RecordEvidence(w.DiskOf(a), EvidenceFilename(slugSeed, record.id), record, now)))
    case Rewrite(_, ops, now) => w.(stores := w.stores.WithDisk(a, ApplyAll(w.DiskOf(a), ops, now)))
    case PutIndex(_, dir, entries) => w.(stores := w.stores.WithDisk(a, w.DiskOf(a)[dir.TailKey() := Index(entries)]))
    case BeginPersist(_, body, citations) => w.(jobs := w.jobs[a := Job(body, citations, 0)])
    case PersistWrite(_) =>
      var job := w.jobs[a];
      w.(stores := OneWrite(w.stores, a, job),
         jobs := w.jobs[a := job.(done := job.done + 1)],
         published := if job.done == 0 then w.published + {Publication(a, job.body, job.citations)} else w.published)
    case CrashPersist(_) => w.(jobs := w.jobs[a := w.jobs[a].(done := 0)])
    case FinishPersist(_) => w.(jobs := w.jobs - {a})
    case RejectPersist(_) => w.(jobs := w.jobs - {a})
    case BeginFold(_, id, sources, now) => w.(folds := w.folds[a := FoldJob(id, sources, now, [], 0)])
    case ReadChild(_) =>
      var fold := w.folds[a];
      w.(folds := w.folds[a := fold.(read := fold.read + [BodyOf(w.stores, NextChild(fold))])])
    case WriteFoldRecord(_) =>
      var fold := w.folds[a];
      w.(stores := w.stores.WithDisk(a,
        WriteFold(w.DiskOf(a), fold.id, fold.sources[fold.written], fold.read[fold.written], fold.now)),
         folds := w.folds[a := fold.(written := fold.written + 1)])
    case CrashFold(_) => w.(folds := w.folds[a := w.folds[a].(read := [], written := 0)])
    case FinishFold(_) => w.(folds := w.folds - {a})
    case RejectFold(_) => w.(folds := w.folds - {a})
  }

  ghost predicate Runs(w: World, steps: seq<Step>)
    decreases |steps|
  {
    steps != [] ==> Enabled(w, steps[0]) && Runs(Apply(w, steps[0]), steps[1..])
  }

  ghost function After(w: World, steps: seq<Step>): World
    requires Runs(w, steps)
    decreases |steps|
  {
    if steps == [] then w else After(Apply(w, steps[0]), steps[1..])
  }

  const EMPTY: World := World(Stores(map[], map[], {}), map[], map[], {})

  // --- What every reachable state satisfies ---------------------------------------------------------------

  /** `sha` is the version of a body once written to `a`'s output path. */
  ghost predicate WasPublished(w: World, a: AgentId, sha: Sha) {
    exists p :: p in w.published && p.agent == a && sha == Sha(Text(p.body))
  }

  predicate IsEvidenceKey(key: string) {
    StartsWith(key, "evidence/") && key != EvidenceDir.TailKey()
  }

  /** Evidence files are records, and a fold record remembers a version its child once published. */
  ghost predicate EvidenceSound(w: World) {
    forall a, key :: key in w.DiskOf(a) && IsEvidenceKey(key) ==> RecordSound(w, w.DiskOf(a)[key])
  }

  ghost predicate RecordSound(w: World, blob: Blob) {
    blob.Evidence? && (blob.record.tool == RECONCILE ==>
      blob.record.fold.Some? && WasPublished(w, blob.record.fold.value.child, blob.record.fold.value.childSha))
  }

  ghost predicate OutputsSound(w: World) {
    && (forall a :: OUTPUT in w.DiskOf(a) ==> w.DiskOf(a)[OUTPUT].Text? && WasPublished(w, a, Sha(w.DiskOf(a)[OUTPUT])))
    && (forall p :: p in w.published ==> OUTPUT in w.DiskOf(p.agent))
  }

  /** Whatever an output was accepted with still resolves. */
  ghost predicate AcceptedStillResolve(w: World) {
    forall p :: p in w.published ==> p.citations != [] && AllResolve(w.DiskOf(p.agent), p.agent, p.citations)
  }

  /**
   A cross-agent pin is a version the child once published; a within-agent pin is what its path resolves to now,
   which is the version of the evidence file there.
   */
  ghost predicate PinSound(w: World, c: Citation) {
    if c.cited.path == OUTPUT then WasPublished(w, c.cited.agent, c.cited.sha)
    else c.cited.agent == c.citing && Resolve(w.DiskOf(c.citing), c.citing, c.cited.path) == Ok(c.cited)
  }

  ghost predicate CitationsSound(w: World) {
    forall c :: c in w.stores.citations ==>
      c.citingPath == OUTPUT && WasPublished(w, c.citing, c.citingSha) && PinSound(w, c)
  }

  ghost predicate JobSound(w: World, a: AgentId, job: Job) {
    && job.done <= 2 + |job.citations|
    && (SettledFor(w, a) || Publication(a, job.body, job.citations) in w.published)
    && (job.done >= 1 ==>
         && At(w.DiskOf(a), OUTPUT) == Some(Text(job.body))
         && Publication(a, job.body, job.citations) in w.published)
    && (job.done >= 2 ==> (a, OUTPUT) in w.stores.index && w.stores.index[(a, OUTPUT)] == Sha(Text(job.body)))
  }

  /** With no output being persisted, the file index holds the version on disk. */
  ghost predicate Settled(w: World) {
    forall a :: a !in w.jobs ==> SettledFor(w, a)
  }

  predicate SettledFor(w: World, a: AgentId) {
    OUTPUT in w.DiskOf(a) ==>
      (a, OUTPUT) in w.stores.index && w.stores.index[(a, OUTPUT)] == Sha(w.DiskOf(a)[OUTPUT])
  }

  ghost predicate FoldSound(w: World, fold: FoldJob) {
    && |fold.read| <= |fold.sources| && fold.written <= |fold.sources|
    && (fold.written > 0 ==> |fold.read| == |fold.sources|)
    && (forall i :: 0 <= i < |fold.read| ==> WasPublished(w, fold.sources[i].child, Sha(Text(fold.read[i]))))
  }

  ghost predicate JobsSound(w: World) {
    && (forall a :: a in w.jobs ==> JobSound(w, a, w.jobs[a]))
    && (forall a :: a in w.folds ==> FoldSound(w, w.folds[a]))
  }

  ghost predicate Inv(w: World) {
    EvidenceSound(w) && OutputsSound(w) && AcceptedStillResolve(w) && CitationsSound(w) && JobsSound(w) && Settled(w)
  }

  // --- What a step never undoes ---------------------------------------------------------------------------

  /** Evidence stays as it is, and publications and citation rows are only added. */
  ghost predicate Extends(w: World, w': World) {
    && (forall a :: EvidenceKept(w.DiskOf(a), w'.DiskOf(a)))
    && w.published <= w'.published
    && w.stores.citations <= w'.stores.citations
  }

  lemma EvidenceNameIsNotTheIndex(slugSeed: string, id: string)
    requires |id| >= 8
    ensures EvidenceFilename(slugSeed, id) != "_tail.json"
  {
    assert |EvidenceFilename(slugSeed, id)| >= 13;
  }

  lemma BatchKeepsEvidence(disk: Disk, ops: seq<FsOp>, now: int)
    requires AllPlanned(ops)
    ensures forall key :: !StartsWith(key, "notes/") ==> At(ApplyAll(disk, ops, now), key) == At(disk, key)
    ensures EvidenceKept(disk, ApplyAll(disk, ops, now))
  {
    var disk' := ApplyAll(disk, ops, now);
    forall key | !StartsWith(key, "notes/") ensures At(disk', key) == At(disk, key) {
      BatchStaysInNotes(disk, ops, now, key);
    }
    forall key | key in disk && StartsWith(key, "evidence/") ensures At(disk', key) == At(disk, key) {
      assert key[0] == "evidence/"[0] && key[0] != "notes/"[0];
    }
  }

  lemma FoldKeepsEvidence(disk: Disk, fold: FoldJob, i: nat)
    requires i < |fold.sources| && i < |fold.read|
    ensures EvidenceKept(disk, WriteFold(disk, fold.id, fold.sources[i], fold.read[i], fold.now))
  {
    var source, body := fold.sources[i], fold.read[i];
    FoldFilenameIsFree(fold.id, source, body);
    RecordKeepsEvidence(
      disk, FoldFilename(fold.id, source, body), FoldRecord(fold.id, source, body, fold.now), fold.now);
  }

  lemma IndexWriteKeepsEvidence(disk: Disk, dir: Directory, entries: seq<TailEntry>)
    ensures EvidenceKept(disk, disk[dir.TailKey() := Index(entries)])
  {
    assert NotesDir.TailKey()[0] != "evidence/"[0];
  }

  lemma StepExtends(w: World, step: Step)
    requires Enabled(w, step)
    ensures Extends(w, Apply(w, step))
  {
    var w', a := Apply(w, step), step.agent;
    match step {
      case CallTool(_, slugSeed, record, now) =>
        EvidenceNameIsNotTheIndex(slugSeed, record.id);
        RecordKeepsEvidence(w.DiskOf(a), EvidenceFilename(slugSeed, record.id), record, now);
      case Rewrite(_, ops, now) => BatchKeepsEvidence(w.DiskOf(a), ops, now);
      case PutIndex(_, dir, entries) => IndexWriteKeepsEvidence(w.DiskOf(a), dir, entries);
      case PersistWrite(_) =>
        assert OUTPUT[0] != "evidence/"[0];
      case WriteFoldRecord(_) => FoldKeepsEvidence(w.DiskOf(a), w.folds[a], w.folds[a].written);
      case _ =>
    }
  }

  lemma ExtendsKeepsSound(w: World, w': World)
    requires Extends(w, w')
    ensures forall a, sha :: WasPublished(w, a, sha) ==> WasPublished(w', a, sha)
    ensures forall blob :: RecordSound(w, blob) ==> RecordSound(w', blob)
    ensures forall c :: PinSound(w, c) ==> PinSound(w', c)
    ensures forall fold :: FoldSound(w, fold) ==> FoldSound(w', fold)
  {
    forall c | PinSound(w, c) && c.cited.path != OUTPUT ensures PinSound(w', c) {
      ResolveIsStable(w.DiskOf(c.citing), w'.DiskOf(c.citing), c.citing, c.cited.path);
    }
  }

  lemma StepEvidence(w: World, step: Step)
    requires Inv(w) && Enabled(w, step)
    ensures EvidenceSound(Apply(w, step))
  {
    var w', a := Apply(w, step), step.agent;
    StepExtends(w, step);
    ExtendsKeepsSound(w, w');
    forall b, key | key in w'.DiskOf(b) && IsEvidenceKey(key) ensures RecordSound(w', w'.DiskOf(b)[key]) {
      if key in w.DiskOf(b) {
        assert w'.DiskOf(b)[key] == w.DiskOf(b)[key];
      } else if step.CallTool? || step.WriteFoldRecord? {
        NewEvidenceIsSound(w, step, key);
      } else {
        OtherStepsAddNoEvidence(w, step, b, key);
      }
    }
  }

  lemma NewEvidenceIsSound(w: World, step: Step, key: string)
    requires Inv(w) && Enabled(w, step) && IsEvidenceKey(key) && (step.CallTool? || step.WriteFoldRecord?)
    requires key in Apply(w, step).DiskOf(step.agent) && key !in w.DiskOf(step.agent)
    ensures RecordSound(w, Apply(w, step).DiskOf(step.agent)[key])
  {
    if step.WriteFoldRecord? {
      assert FoldSound(w, w.folds[step.agent]);
    }
  }

  lemma OtherStepsAddNoEvidence(w: World, step: Step, b: AgentId, key: string)
    requires Enabled(w, step) && !step.CallTool? && !step.WriteFoldRecord? && IsEvidenceKey(key)
    ensures key in Apply(w, step).DiskOf(b) ==> key in w.DiskOf(b)
  {
    var a := step.agent;
    assert key[0] == "evidence/"[0] && key[0] != "notes/"[0] && key[0] != OUTPUT[0];
    match step {
      case Rewrite(_, ops, now) =>
        BatchKeepsEvidence(w.DiskOf(a), ops, now);
        assert At(ApplyAll(w.DiskOf(a), ops, now), key) == At(w.DiskOf(a), key);
      case PutIndex(_, dir, _) =>
        assert NotesDir.TailKey()[0] == "notes/"[0];
      case _ =>
    }
  }

  lemma OutputKeyIsApart()
    ensures forall key :: StartsWith(key, "evidence/") || StartsWith(key, "notes/") ==> key != OUTPUT
    ensures forall f :: "evidence/" + f != OUTPUT
  {
    forall key | StartsWith(key, "evidence/") || StartsWith(key, "notes/") ensures key != OUTPUT {
      assert key[0] == "evidence/"[0] || key[0] == "notes/"[0];
    }
    forall f: string ensures "evidence/" + f != OUTPUT {
      assert ("evidence/" + f)[0] == 'e';
    }
  }

  /** Only an output's first write touches the output file. */
  lemma StepOutput(w: World, step: Step, b: AgentId)
    requires Enabled(w, step)
    ensures At(Apply(w, step).DiskOf(b), OUTPUT)
         == if step == PersistWrite(b) && w.jobs[b].done == 0 then Some(Text(w.jobs[b].body))
            else At(w.DiskOf(b), OUTPUT)
  {
    var a := step.agent;
    OutputKeyIsApart();
    match step {
      case CallTool(_, slugSeed, record, now) =>
        EvidenceNameIsNotTheIndex(slugSeed, record.id);
        RecordKeepsEvidence(w.DiskOf(a), EvidenceFilename(slugSeed, record.id), record, now);
      case Rewrite(_, ops, now) =>
        BatchKeepsEvidence(w.DiskOf(a), ops, now);
        assert !StartsWith(OUTPUT, "notes/");
      case PutIndex(_, dir, _) =>
        assert StartsWith(dir.TailKey(), dir.Prefix());
      case WriteFoldRecord(_) =>
        var fold := w.folds[a];
        var source, body := fold.sources[fold.written], fold.read[fold.written];
        FoldFilenameIsFree(fold.id, source, body);
        RecordKeepsEvidence(w.DiskOf(a), FoldFilename(fold.id, source, body),
          FoldRecord(fold.id, source, body, fold.now), fold.now);
      case _ =>
    }
  }

  /** A job that can be rejected has written nothing in any attempt. */
  lemma RejectedWasNeverWritten(w: World, a: AgentId)
    requires Inv(w) && Enabled(w, RejectPersist(a))
    ensures Publication(a, w.jobs[a].body, w.jobs[a].citations) !in w.published
  {
    var p := Publication(a, w.jobs[a].body, w.jobs[a].citations);
    if p in w.published {
      assert AllResolve(w.DiskOf(p.agent), p.agent, p.citations);
      AllResolveHasNoFault(w.DiskOf(a), a, p.citations);
    }
  }

  lemma StepOutputs(w: World, step: Step)
    requires Inv(w) && Enabled(w, step)
    ensures OutputsSound(Apply(w, step)) && Settled(Apply(w, step))
  {
    var w' := Apply(w, step);
    StepExtends(w, step);
    ExtendsKeepsSound(w, w');
    forall b ensures OUTPUT in w'.DiskOf(b) ==>
      w'.DiskOf(b)[OUTPUT].Text? && WasPublished(w', b, Sha(w'.DiskOf(b)[OUTPUT]))
      ensures OUTPUT in w.DiskOf(b) ==> OUTPUT in w'.DiskOf(b)
      ensures b !in w'.jobs ==> SettledFor(w', b)
    {
      StepOutput(w, step, b);
      if step == PersistWrite(b) && w.jobs[b].done == 0 {
        assert Publication(b, w.jobs[b].body, w.jobs[b].citations) in w'.published;
      }
      if b in w.jobs {
        assert JobSound(w, b, w.jobs[b]);
        if step == RejectPersist(b) {
          RejectedWasNeverWritten(w, b);
        }
      }
    }
    forall p | p in w'.published ensures OUTPUT in w'.DiskOf(p.agent) {
      if p !in w.published {
        StepOutput(w, step, p.agent);
      }
    }
  }

  lemma AcceptedResolves(w: World, a: AgentId, citations: seq<string>)
    requires EvidenceSound(w) && OutputFault(w.DiskOf(a), citations).None?
    ensures citations != [] && AllResolve(w.DiskOf(a), a, citations)
  {
    NoFaultMeansAllResolve(w.DiskOf(a), citations);
    forall c | c in citations ensures Resolve(w.DiskOf(a), a, c).Ok? {
      var key := CitedKey(c).value;
      assert IsEvidenceKey(key) && RecordSound(w, w.DiskOf(a)[key]);
    }
  }

  lemma StepAccepted(w: World, step: Step)
    requires Inv(w) && Enabled(w, step)
    ensures AcceptedStillResolve(Apply(w, step))
  {
    var w' := Apply(w, step);
    StepExtends(w, step);
    forall p | p in w'.published ensures p.citations != [] && AllResolve(w'.DiskOf(p.agent), p.agent, p.citations) {
      if p !in w.published {
        AcceptedResolves(w, p.agent, p.citations);
      }
      RowsAreStable(w.DiskOf(p.agent), w'.DiskOf(p.agent), p.agent, p.body, p.citations);
    }
  }

  lemma StepCitations(w: World, step: Step)
    requires Inv(w) && Enabled(w, step)
    ensures CitationsSound(Apply(w, step))
  {
    var w', a := Apply(w, step), step.agent;
    StepExtends(w, step);
    ExtendsKeepsSound(w, w');
    forall c | c in w'.stores.citations && c !in w.stores.citations
      ensures c.citingPath == OUTPUT && WasPublished(w', c.citing, c.citingSha) && PinSound(w', c)
    {
      NewRowIsSound(w, a, c);
    }
  }

  lemma NewRowIsSound(w: World, a: AgentId, c: Citation)
    requires Inv(w) && Enabled(w, PersistWrite(a))
    requires c in Apply(w, PersistWrite(a)).stores.citations && c !in w.stores.citations
    ensures c.citingPath == OUTPUT && WasPublished(w, c.citing, c.citingSha) && PinSound(w, c)
  {
    var job := w.jobs[a];
    assert JobSound(w, a, job) && Publication(a, job.body, job.citations) in w.published;
    ResolvedPinIsSound(w, a, job.citations[job.done - 2], c);
  }

  lemma FirstPartDecides(first: string, second: string, dir: string)
    requires SlashFree(first) && SlashFree(second) && IsNormal(first)
    requires IsNormal(second) && SlashFree(dir) && first != dir
    requires first != ".." && second != ".."
    ensures CleanRelpath(first + "/" + second).Ok? && !StartsWith(first + "/" + second, dir + "/")
    ensures CleanRelpath(first + "/" + second).value == first + "/" + second
  {
    TwoPartsAreClean(first, second);
    InsideDirectory([first, second], dir);
  }

  lemma OutputIsNotCitable()
    ensures CitedKey(OUTPUT).Err?
  {
    assert OUTPUT == "outputs" + "/" + "output.md" && "evidence" + "/" == "evidence/";
    FirstPartDecides("outputs", "output.md", "evidence");
  }

  lemma ResolvedPinIsSound(w: World, a: AgentId, path: string, c: Citation)
    requires EvidenceSound(w) && Resolve(w.DiskOf(a), a, path) == Ok(c.cited) && c.citing == a
    ensures PinSound(w, c)
  {
    var key := CitedKey(path).value;
    OutputKeyIsApart();
    assert IsEvidenceKey(key) && RecordSound(w, w.DiskOf(a)[key]);
    OutputIsNotCitable();
  }

  lemma StepJobs(w: World, step: Step)
    requires Inv(w) && Enabled(w, step)
    ensures JobsSound(Apply(w, step))
  {
    var w', a := Apply(w, step), step.agent;
    StepExtends(w, step);
    ExtendsKeepsSound(w, w');
    forall b | b in w'.jobs ensures JobSound(w', b, w'.jobs[b]) {
      StepOutput(w, step, b);
      if b in w.jobs {
        assert JobSound(w, b, w.jobs[b]);
      } else {
        assert SettledFor(w, b);
      }
    }
    forall b | b in w'.folds ensures FoldSound(w', w'.folds[b]) {
      if b in w.folds {
        assert FoldSound(w, w.folds[b]) && FoldSound(w', w.folds[b]);
      }
      if step == ReadChild(b) {
        assert OUTPUT in w.DiskOf(NextChild(w.folds[b]));
      }
    }
  }

  lemma StepKeepsInv(w: World, step: Step)
    requires Inv(w) && Enabled(w, step)
    ensures Inv(Apply(w, step)) && Extends(w, Apply(w, step))
  {
    StepExtends(w, step);
    StepEvidence(w, step);
    StepOutputs(w, step);
    StepAccepted(w, step);
    StepCitations(w, step);
    StepJobs(w, step);
  }

  // --- Over whole runs ------------------------------------------------------------------------------------

  lemma {:induction false} RunKeepsInv(w: World, steps: seq<Step>)
    requires Inv(w) && Runs(w, steps)
    ensures Inv(After(w, steps)) && Extends(w, After(w, steps))
    decreases |steps|
  {
    if steps != [] {
      StepKeepsInv(w, steps[0]);
      RunKeepsInv(Apply(w, steps[0]), steps[1..]);
    }
  }

  ghost predicate Reachable(w: World) {
    exists steps :: Runs(EMPTY, steps) && After(EMPTY, steps) == w
  }

  lemma ReachableInv(w: World)
    requires Reachable(w)
    ensures Inv(w)
  {
    var steps :| Runs(EMPTY, steps) && After(EMPTY, steps) == w;
    RunKeepsInv(EMPTY, steps);
  }

  /** No citation dangles, in any reachable state and whatever has crashed. */
  lemma NoDanglingPins(w: World, c: Citation)
    requires Reachable(w) && c in w.stores.citations
    ensures c.citingPath == OUTPUT
    ensures exists p :: p in w.published && p.agent == c.citing && c.citingSha == Sha(Text(p.body))
    ensures c.cited.path != OUTPUT ==>
      && c.cited.agent == c.citing && CitedKey(c.cited.path).Ok?
      && At(w.DiskOf(c.citing), CitedKey(c.cited.path).value) == Some(c.cited.sha.content)
    ensures c.cited.path == OUTPUT ==>
      exists p :: p in w.published && p.agent == c.cited.agent && c.cited.sha == Sha(Text(p.body))
  {
    ReachableInv(w);
    assert PinSound(w, c);
  }

  /** Evidence is immutable: what a path resolves to once, it resolves to forever after. */
  lemma EvidenceForever(w: World, steps: seq<Step>, a: AgentId, path: string)
    requires Reachable(w) && Runs(w, steps) && Resolve(w.DiskOf(a), a, path).Ok?
    ensures Resolve(After(w, steps).DiskOf(a), a, path) == Resolve(w.DiskOf(a), a, path)
  {
    ReachableInv(w);
    RunKeepsInv(w, steps);
    ResolveIsStable(w.DiskOf(a), After(w, steps).DiskOf(a), a, path);
  }

  /** Every citation an output was ever accepted with still resolves, as long as the agent exists. */
  lemma AcceptedCitationsResolve(w: World, p: Publication)
    requires Reachable(w) && p in w.published
    ensures OUTPUT in w.DiskOf(p.agent) && p.citations != []
    ensures forall c :: c in p.citations ==> ReadEvidence(w.DiskOf(p.agent), c).Ok?
  {
    ReachableInv(w);
    forall c | c in p.citations ensures ReadEvidence(w.DiskOf(p.agent), c).Ok? {
      assert Resolve(w.DiskOf(p.agent), p.agent, c).Ok?;
    }
  }

  /** With no output of the child in flight, a pin differs from the indexed version exactly when the body moved on. */
  lemma StalePinIsExact(w: World, c: Citation)
    requires Reachable(w) && c in w.stores.citations && c.cited.path == OUTPUT && c.cited.agent !in w.jobs
    ensures HasOutput(w.stores, c.cited.agent) && (c.cited.agent, OUTPUT) in w.stores.index
    ensures w.stores.index[(c.cited.agent, OUTPUT)] != c.cited.sha
       <==> Text(BodyOf(w.stores, c.cited.agent)) != c.cited.sha.content
  {
    ReachableInv(w);
    assert PinSound(w, c);
  }

  // --- Convergence under interleaving ---------------------------------------------------------------------

  function RowsBy(s: Stores, a: AgentId): set<Citation> {
    s.OutputOf(a).rows
  }

  /** The rows the first `done` writes of an attempt have added. */
  function RowsSoFar(disk: Disk, a: AgentId, job: Job): set<Citation>
    requires job.done <= 2 + |job.citations|
  {
    if job.done > 2 then Rows(disk, a, job.body, job.citations[..job.done - 2]) else {}
  }

  /** The rows on record are the old ones and at least `some` but nothing beyond `all` of the new ones. */
  predicate RowsBetween(base: set<Citation>, rows: set<Citation>, some: set<Citation>, all: set<Citation>) {
    base <= rows && rows <= base + all && some <= rows
  }

  /** Where an output begun in `w0` stands in `w`: between nothing and all of what a single call would have written. */
  ghost predicate Progress(w0: World, w: World, a: AgentId) {
    && a in w0.jobs && a in w.jobs
    && w.jobs[a].body == w0.jobs[a].body && w.jobs[a].citations == w0.jobs[a].citations
    && EvidenceKept(w0.DiskOf(a), w.DiskOf(a))
    && JobSound(w, a, w.jobs[a])
    && RowsBetween(
         RowsBy(w0.stores, a), RowsBy(w.stores, a), RowsSoFar(w0.DiskOf(a), a, w.jobs[a]),
         Rows(w0.DiskOf(a), a, w.jobs[a].body, w.jobs[a].citations))
  }

  lemma StepRows(w: World, step: Step, a: AgentId)
    requires Enabled(w, step)
    ensures RowsBy(Apply(w, step).stores, a) ==
      if step == PersistWrite(a) && w.jobs[a].done >= 2
      then RowsBy(w.stores, a)
        + {Row(a, w.jobs[a].body, Resolve(w.DiskOf(a), a, w.jobs[a].citations[w.jobs[a].done - 2]).value)}
      else RowsBy(w.stores, a)
  {
  }

  ghost predicate KeepsJob(w: World, w': World, a: AgentId) {
    a in w'.jobs && JobSound(w', a, w'.jobs[a]) && EvidenceKept(w.DiskOf(a), w'.DiskOf(a))
  }

  /** A step leaves an output that is still in flight sound, and its evidence in place. */
  lemma StepKeepsJob(w: World, step: Step, a: AgentId)
    requires Inv(w) && Enabled(w, step) && a in Apply(w, step).jobs
    ensures KeepsJob(w, Apply(w, step), a)
  {
    StepExtends(w, step);
    StepJobs(w, step);
  }

  /** A step that is not this output's own leaves it where it stands. */
  lemma ProgressBystander(w0: World, w: World, step: Step, a: AgentId)
    requires Progress(w0, w, a) && Enabled(w, step) && KeepsJob(w, Apply(w, step), a)
    requires step != FinishPersist(a) && step != RejectPersist(a) && step != PersistWrite(a)
    ensures Progress(w0, Apply(w, step), a)
  {
    StepRows(w, step, a);
  }

  /** What one more write does to its own output's attempt and to the rows on record. */
  ghost predicate Wrote(w: World, w': World, a: AgentId)
    requires a in w.jobs && a in w'.jobs
  {
    var job := w.jobs[a];
    && w'.jobs[a] == job.(done := job.done + 1)
    && if job.done < 2 then RowsBy(w'.stores, a) == RowsBy(w.stores, a)
       else
         && job.done < 2 + |job.citations| && Resolve(w.DiskOf(a), a, job.citations[job.done - 2]).Ok?
         && RowsBy(w'.stores, a)
            == RowsBy(w.stores, a) + {Row(a, job.body, Resolve(w.DiskOf(a), a, job.citations[job.done - 2]).value)}
  }

  lemma WriteWrites(w: World, a: AgentId)
    requires Enabled(w, PersistWrite(a))
    ensures a in w.jobs && a in Apply(w, PersistWrite(a)).jobs && Wrote(w, Apply(w, PersistWrite(a)), a)
  {
    StepRows(w, PersistWrite(a), a);
  }

  lemma ProgressAfterWrite(w0: World, w: World, w': World, a: AgentId)
    requires Progress(w0, w, a) && KeepsJob(w, w', a) && Wrote(w, w', a)
    requires AllResolve(w0.DiskOf(a), a, w0.jobs[a].citations)
    ensures Progress(w0, w', a)
  {
    var job := w.jobs[a];
    if job.done >= 2 {
      var row := Row(a, job.body, Resolve(w.DiskOf(a), a, job.citations[job.done - 2]).value);
      WriteAddsRow(w0.DiskOf(a), w.DiskOf(a), a, job, RowsBy(w0.stores, a), RowsBy(w.stores, a), row);
    }
  }

  lemma ProgressWrite(w0: World, w: World, a: AgentId)
    requires Progress(w0, w, a) && Enabled(w, PersistWrite(a))
    requires KeepsJob(w, Apply(w, PersistWrite(a)), a)
    requires AllResolve(w0.DiskOf(a), a, w0.jobs[a].citations)
    ensures Progress(w0, Apply(w, PersistWrite(a)), a)
  {
    WriteWrites(w, a);
    ProgressAfterWrite(w0, w, Apply(w, PersistWrite(a)), a);
  }

  /** The row written next lies between what was written and what a single call would write. */
  lemma WriteAddsRow(
    before: Disk, now: Disk, a: AgentId, job: Job, base: set<Citation>, rows: set<Citation>, row: Citation)
    requires EvidenceKept(before, now) && AllResolve(before, a, job.citations)
    requires 2 <= job.done < 2 + |job.citations| && Resolve(now, a, job.citations[job.done - 2]).Ok?
    requires row == Row(a, job.body, Resolve(now, a, job.citations[job.done - 2]).value)
    requires RowsBetween(base, rows, RowsSoFar(before, a, job), Rows(before, a, job.body, job.citations))
    ensures RowsBetween(
      base, rows + {row}, RowsSoFar(before, a, job.(done := job.done + 1)), Rows(before, a, job.body, job.citations))
  {
    NextRow(before, now, a, job);
    RowsGrow(base, rows, RowsSoFar(before, a, job), Rows(before, a, job.body, job.citations), row);
  }

  lemma RowsGrow(base: set<Citation>, rows: set<Citation>, some: set<Citation>, all: set<Citation>, row: Citation)
    requires RowsBetween(base, rows, some, all) && row in all
    ensures RowsBetween(base, rows + {row}, some + {row}, all)
  {
  }

  /** The next row is the one a single call would write, and joins the rows written so far. */
  lemma NextRow(before: Disk, now: Disk, a: AgentId, job: Job)
    requires EvidenceKept(before, now) && AllResolve(before, a, job.citations)
    requires 2 <= job.done < 2 + |job.citations| && Resolve(now, a, job.citations[job.done - 2]).Ok?
    ensures var row := Row(a, job.body, Resolve(now, a, job.citations[job.done - 2]).value);
      && row in Rows(before, a, job.body, job.citations)
      && RowsSoFar(before, a, job.(done := job.done + 1)) == RowsSoFar(before, a, job) + {row}
  {
    var n := job.done - 2;
    ResolveIsStable(before, now, a, job.citations[n]);
    RowsSnoc(before, a, job.body, job.citations, n);
    assert job.citations[n] in job.citations;
    assert Rows(before, a, job.body, job.citations[..0]) == {};
  }

  lemma ProgressStep(w0: World, w: World, step: Step, a: AgentId)
    requires Inv(w) && Progress(w0, w, a) && Enabled(w, step) && step != FinishPersist(a)
    requires AllResolve(w0.DiskOf(a), a, w0.jobs[a].citations) && w0.jobs[a].citations != []
    ensures Progress(w0, Apply(w, step), a)
  {
    if step == RejectPersist(a) {
      RowsAreStable(w0.DiskOf(a), w.DiskOf(a), a, w.jobs[a].body, w.jobs[a].citations);
      AllResolveHasNoFault(w.DiskOf(a), a, w.jobs[a].citations);
    } else {
      StepKeepsJob(w, step, a);
      if step == PersistWrite(a) {
        ProgressWrite(w0, w, a);
      } else {
        ProgressBystander(w0, w, step, a);
      }
    }
  }

  lemma {:induction false} ProgressRun(w0: World, w: World, steps: seq<Step>, a: AgentId)
    requires Inv(w) && Progress(w0, w, a) && Runs(w, steps) && FinishPersist(a) !in steps
    requires AllResolve(w0.DiskOf(a), a, w0.jobs[a].citations) && w0.jobs[a].citations != []
    ensures Progress(w0, After(w, steps), a)
    decreases |steps|
  {
    if steps != [] {
      assert steps[0] in steps && forall step :: step in steps[1..] ==> step in steps;
      ProgressStep(w0, w, steps[0], a);
      StepKeepsInv(w, steps[0]);
      ProgressRun(w0, Apply(w, steps[0]), steps[1..], a);
    }
  }

  lemma ProgressDone(w0: World, w: World, a: AgentId)
    requires Progress(w0, w, a) && Enabled(w, FinishPersist(a)) && w0.jobs[a].citations != []
    ensures Apply(w, FinishPersist(a)).stores.OutputOf(a)
         == Uninterrupted(w0.stores, a, w0.jobs[a].body, w0.jobs[a].citations).OutputOf(a)
  {
    var job := w0.jobs[a];
    assert job.citations[..|job.citations|] == job.citations;
    var t := Uninterrupted(w0.stores, a, job.body, job.citations);
    assert t.citations == w0.stores.citations + Rows(w0.DiskOf(a), a, job.body, job.citations);
    assert RowsBy(t, a) == RowsBy(w0.stores, a) + Rows(w0.DiskOf(a), a, job.body, job.citations);
  }

  /**
   Two-store convergence: an output that is begun with citations that resolve ends, whatever crashes, retries and
   other agents' steps come in between, with the file, the indexed version and the rows of one uninterrupted call.
   */
  lemma PersistConverges(w: World, steps: seq<Step>, a: AgentId)
    requires Reachable(w) && a in w.jobs && w.jobs[a].done == 0
    requires w.jobs[a].citations != [] && AllResolve(w.DiskOf(a), a, w.jobs[a].citations)
    requires Runs(w, steps) && FinishPersist(a) !in steps && Enabled(After(w, steps), FinishPersist(a))
    ensures Apply(After(w, steps), FinishPersist(a)).stores.OutputOf(a)
         == Uninterrupted(w.stores, a, w.jobs[a].body, w.jobs[a].citations).OutputOf(a)
  {
    ReachableInv(w);
    assert JobSound(w, a, w.jobs[a]);
    ProgressRun(w, w, steps, a);
    ProgressDone(w, After(w, steps), a);
  }

  // --- Nothing gets stuck ---------------------------------------------------------------------------------

  /** An attempt whose citations resolve has a next write until it is through. */
  lemma NextWriteIsEnabled(w: World, a: AgentId)
    requires Inv(w) && a in w.jobs && w.jobs[a].done < 2 + |w.jobs[a].citations|
    requires w.jobs[a].citations != [] && AllResolve(w.DiskOf(a), a, w.jobs[a].citations)
    ensures Enabled(w, PersistWrite(a))
    ensures var w' := Apply(w, PersistWrite(a));
      && Inv(w') && a in w'.jobs && w'.jobs[a] == w.jobs[a].(done := w.jobs[a].done + 1)
      && AllResolve(w'.DiskOf(a), a, w'.jobs[a].citations)
  {
    var job := w.jobs[a];
    AllResolveHasNoFault(w.DiskOf(a), a, job.citations);
    if job.done >= 2 {
      assert job.citations[job.done - 2] in job.citations;
    }
    var w' := Apply(w, PersistWrite(a));
    StepKeepsInv(w, PersistWrite(a));
    StepExtends(w, PersistWrite(a));
    RowsAreStable(w.DiskOf(a), w'.DiskOf(a), a, job.body, job.citations);
  }

  lemma {:induction false} WritesToTheEnd(w: World, a: AgentId) returns (steps: seq<Step>)
    requires Inv(w) && a in w.jobs
    requires w.jobs[a].citations != [] && AllResolve(w.DiskOf(a), a, w.jobs[a].citations)
    ensures Runs(w, steps) && FinishPersist(a) !in steps && Enabled(After(w, steps), FinishPersist(a))
    decreases 2 + |w.jobs[a].citations| - w.jobs[a].done
  {
    assert JobSound(w, a, w.jobs[a]);
    if w.jobs[a].done == 2 + |w.jobs[a].citations| {
      return [];
    }
    NextWriteIsEnabled(w, a);
    var rest := WritesToTheEnd(Apply(w, PersistWrite(a)), a);
    steps := [PersistWrite(a)] + rest;
    assert steps[1..] == rest;
  }

  /** From every reachable state, whatever crashed before, an output in flight can be brought to one of its ends. */
  lemma EveryOutputCanEnd(w: World, a: AgentId) returns (steps: seq<Step>)
    requires Reachable(w) && a in w.jobs
    ensures Runs(w, steps) && FinishPersist(a) !in steps
    ensures Enabled(After(w, steps), FinishPersist(a)) || Enabled(After(w, steps), RejectPersist(a))
  {
    var job := w.jobs[a];
    ReachableInv(w);
    assert JobSound(w, a, job);
    if job.done == 0 && OutputFault(w.DiskOf(a), job.citations).Some? {
      return [];
    }
    if job.done == 0 {
      AcceptedResolves(w, a, job.citations);
    } else {
      assert Publication(a, job.body, job.citations) in w.published;
    }
    steps := WritesToTheEnd(w, a);
  }

  lemma {:induction false} FoldsToTheEnd(w: World, a: AgentId) returns (steps: seq<Step>)
    requires a in w.folds && |w.folds[a].read| <= |w.folds[a].sources| && w.folds[a].written <= |w.folds[a].sources|
    ensures Runs(w, steps)
    ensures Enabled(After(w, steps), FinishFold(a)) || Enabled(After(w, steps), RejectFold(a))
    decreases 2 * |w.folds[a].sources| - |w.folds[a].read| - w.folds[a].written
  {
    var fold := w.folds[a];
    if |fold.read| < |fold.sources| && !HasOutput(w.stores, NextChild(fold)) {
      return [];
    }
    if fold.written == |fold.sources| {
      return [];
    }
    var step := if |fold.read| < |fold.sources| then ReadChild(a) else WriteFoldRecord(a);
    var rest := FoldsToTheEnd(Apply(w, step), a);
    steps := [step] + rest;
    assert steps[1..] == rest;
  }

  /** And so can a fold in flight. */
  lemma EveryFoldCanEnd(w: World, a: AgentId) returns (steps: seq<Step>)
    requires Reachable(w) && a in w.folds
    ensures Runs(w, steps)
    ensures Enabled(After(w, steps), FinishFold(a)) || Enabled(After(w, steps), RejectFold(a))
  {
    ReachableInv(w);
    assert FoldSound(w, w.folds[a]);
    steps := FoldsToTheEnd(w, a);
  }

  // --- A fold that fails leaves nothing -------------------------------------------------------------------

  ghost predicate AllHaveOutputs(w: World, sources: seq<Source>) {
    forall source :: source in sources ==> HasOutput(w.stores, source.child)
  }

  ghost predicate Folding(w: World, a: AgentId, sources: seq<Source>) {
    a in w.folds && w.folds[a].sources == sources
  }

  lemma FoldStep(w: World, step: Step, a: AgentId, sources: seq<Source>)
    requires Inv(w) && Enabled(w, step) && Folding(w, a, sources)
    requires step != FinishFold(a) && step != RejectFold(a)
    ensures Folding(Apply(w, step), a, sources)
    ensures AllHaveOutputs(w, sources) ==> AllHaveOutputs(Apply(w, step), sources)
  {
    forall source | source in sources && HasOutput(w.stores, source.child)
      ensures HasOutput(Apply(w, step).stores, source.child)
    {
      StepOutput(w, step, source.child);
    }
  }

  /** A fold in flight keeps its sources, and outputs do not go away. */
  lemma {:induction false} FoldRun(w: World, steps: seq<Step>, a: AgentId, sources: seq<Source>)
    requires Inv(w) && Runs(w, steps) && Folding(w, a, sources)
    requires FinishFold(a) !in steps && RejectFold(a) !in steps
    ensures Inv(After(w, steps)) && Folding(After(w, steps), a, sources)
    ensures AllHaveOutputs(w, sources) ==> AllHaveOutputs(After(w, steps), sources)
    decreases |steps|
  {
    if steps != [] {
      assert steps[0] in steps && forall step :: step in steps[1..] ==> step in steps;
      StepKeepsInv(w, steps[0]);
      FoldStep(w, steps[0], a, sources);
      FoldRun(Apply(w, steps[0]), steps[1..], a, sources);
    }
  }

  lemma WritingMeansAllRead(w: World, a: AgentId)
    requires Inv(w) && Enabled(w, WriteFoldRecord(a))
    ensures AllHaveOutputs(w, w.folds[a].sources)
  {
    var fold := w.folds[a];
    assert FoldSound(w, fold);
    forall source | source in fold.sources ensures HasOutput(w.stores, source.child) {
      var i :| 0 <= i < |fold.sources| && fold.sources[i] == source;
      assert WasPublished(w, fold.sources[i].child, Sha(Text(fold.read[i])));
    }
  }

  lemma {:induction false} NoRecordBeforeRejection(w: World, steps: seq<Step>, a: AgentId)
    requires Inv(w) && Runs(w, steps) && a in w.folds && FinishFold(a) !in steps && RejectFold(a) !in steps
    requires Enabled(After(w, steps), RejectFold(a))
    ensures WriteFoldRecord(a) !in steps
    decreases |steps|
  {
    if steps != [] {
      var sources := w.folds[a].sources;
      assert steps == [steps[0]] + steps[1..];
      if steps[0] == WriteFoldRecord(a) {
        WritingMeansAllRead(w, a);
        FoldRun(w, steps, a, sources);
        MissingChildIsASource(After(w, steps), a);
      } else {
        StepKeepsInv(w, steps[0]);
        FoldStep(w, steps[0], a, sources);
        NoRecordBeforeRejection(Apply(w, steps[0]), steps[1..], a);
      }
    }
  }

  lemma MissingChildIsASource(w: World, a: AgentId)
    requires Enabled(w, RejectFold(a))
    ensures !AllHaveOutputs(w, w.folds[a].sources)
  {
    assert w.folds[a].sources[|w.folds[a].read|] in w.folds[a].sources;
  }

  /** A fold turned down for a missing child output has written no record, in no attempt. */
  lemma RejectedFoldWroteNothing(w: World, steps: seq<Step>, a: AgentId)
    requires Reachable(w) && a in w.folds && Runs(w, steps) && FinishFold(a) !in steps && RejectFold(a) !in steps
    requires Enabled(After(w, steps), RejectFold(a))
    ensures WriteFoldRecord(a) !in steps
  {
    ReachableInv(w);
    NoRecordBeforeRejection(w, steps, a);
  }
}
