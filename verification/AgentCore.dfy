/** The steps an agent's decision turns into: a batch of tool calls, an output, a batch of note edits. */
module AgentCore {
  import opened Wrappers
  import opened Sorting
  import opened Paths
  import opened AgentStore
  import opened AgentFilesystem
  import opened CycleLoop
  import opened Provenance

  datatype ToolCall = ToolCall(name: string, claimSeed: string)

  /** A step either comes back to the model, with what it recorded and what failed, or aborts the agent's run. */
  datatype StepResult = Outcome(recorded: seq<string>, failure: Option<StepFailure>) | Bubbled(error: FsError)

  type CallResult = Result<Record, string>

  ghost predicate IdsAreLong(results: seq<CallResult>) {
    forall i :: 0 <= i < |results| ==> IdIsLong(results[i])
  }

  ghost predicate IdIsLong(result: CallResult) {
    result.Ok? ==> |result.value.id| >= 8
  }

  /** One call's effect on the disk, and what it adds to the two lists. */
  function RecordCall(disk: Disk, call: ToolCall, result: CallResult, now: int): Disk
    requires IdIsLong(result)
  {
    if result.Ok? then RecordEvidence(disk, EvidenceFilename(call.claimSeed, result.value.id), result.value, now)
    else disk
  }

  function PathOf(call: ToolCall, result: CallResult): seq<string>
    requires IdIsLong(result)
  {
    if result.Ok? then [EvidenceRelpath(call.claimSeed, result.value.id)] else []
  }

  function FailureOf(call: ToolCall, result: CallResult): seq<ToolFailure> {
    if result.Err? then [ToolFailure(call.name, result.error)] else []
  }

  /** The successes are recorded in call order; a repeated record is kept as first written. */
  function RecordAll(disk: Disk, calls: seq<ToolCall>, results: seq<CallResult>, now: int): Disk
    requires |calls| == |results| && IdsAreLong(results)
    decreases |calls|
  {
    if calls == [] then disk else RecordAll(RecordCall(disk, calls[0], results[0], now), calls[1..], results[1..], now)
  }

  function FailuresIn(calls: seq<ToolCall>, results: seq<CallResult>): seq<ToolFailure>
    requires |calls| == |results|
  {
    if calls == [] then [] else FailureOf(calls[0], results[0]) + FailuresIn(calls[1..], results[1..])
  }

  function PathsIn(calls: seq<ToolCall>, results: seq<CallResult>): seq<string>
    requires |calls| == |results| && IdsAreLong(results)
    decreases |calls|
  {
    if calls == [] then [] else PathOf(calls[0], results[0]) + PathsIn(calls[1..], results[1..])
  }

  ghost predicate AllKnown(known: set<string>, calls: seq<ToolCall>) {
    forall c :: c in calls ==> c.name in known
  }

  /** The names of the calls no tool answers to, in call order. */
  function UnknownNames(known: set<string>, calls: seq<ToolCall>): seq<string> {
    if calls == [] then []
    else (if calls[0].name in known then [] else [calls[0].name]) + UnknownNames(known, calls[1..])
  }

  /** The correction spells out every unknown name. */
  function UnknownMessage(names: seq<string>): string {
    "call_tools: no tool registered under name(s) [" + Quoted(names) + "]"
  }

  function Quoted(names: seq<string>): string {
    if names == [] then ""
    else InQuotes(names[0]) + (if |names| == 1 then "" else ", " + Quoted(names[1..]))
  }

  function InQuotes(name: string): string {
    "\"" + DebugText(name) + "\""
  }

  /** A name as Rust's `{:?}` spells it, up to unprintable characters. */
  function DebugText(name: string): string {
    if name == "" then "" else DebugChar(name[0]) + DebugText(name[1..])
  }

  function DebugChar(c: char): string {
    match c
    case '\"' => "\\\""
    case '\\' => "\\\\"
    case '\n' => "\\n"
    case '\r' => "\\r"
    case '\t' => "\\t"
    case '\0' => "\\0"
    case _ => [c]
  }

  /** A name without quotes, backslashes or control characters is spelled as it is. */
  lemma {:induction false} PlainNameIsItself(name: string)
    requires forall i :: 0 <= i < |name| ==> name[i] >= ' ' && name[i] != '\"' && name[i] != '\\'
    ensures DebugText(name) == name && InQuotes(name) == ['\"'] + name + ['\"']
  {
    if name != "" {
      PlainNameIsItself(name[1..]);
      assert name == [name[0]] + name[1..];
    }
  }

  /** Different names are spelled differently. */
  lemma {:induction false} SpellingTellsNames(a: string, b: string)
    requires DebugText(a) == DebugText(b)
    ensures a == b
  {
    if a != "" && b != "" {
      SpellingTellsFirst(a[0], DebugText(a[1..]), b[0], DebugText(b[1..]));
      SpellingTellsNames(a[1..], b[1..]);
      assert a == [a[0]] + a[1..] && b == [b[0]] + b[1..];
    }
  }

  lemma SpellingTellsFirst(x: char, s: string, y: char, t: string)
    requires DebugChar(x) + s == DebugChar(y) + t
    ensures x == y && s == t
  {
    var l := DebugChar(x) + s;
    assert l[0] == DebugChar(x)[0] == DebugChar(y)[0];
    if |DebugChar(x)| == 2 && |DebugChar(y)| == 2 {
      assert l[1] == DebugChar(x)[1] == DebugChar(y)[1];
    }
    assert l[|DebugChar(x)|..] == s && l[|DebugChar(y)|..] == t;
  }

  /** The names stand in quotes, with a comma and a blank between any two. */
  lemma {:induction false} QuotedIsAList(names: seq<string>, more: seq<string>)
    ensures Quoted([]) == ""
    ensures |names| == 1 ==> Quoted(names) == InQuotes(names[0])
    ensures names != [] && more != [] ==> Quoted(names + more) == Quoted(names) + ", " + Quoted(more)
  {
    if names != [] && more != [] {
      var all := names + more;
      assert all[1..] == names[1..] + more;
      if |names| == 1 {
        assert all[1..] == more;
      } else {
        QuotedIsAList(names[1..], more);
        ListGoesOn(InQuotes(names[0]), Quoted(names[1..]), Quoted(more));
      }
    }
  }

  lemma ListGoesOn(first: string, rest: string, more: string)
    ensures first + (", " + (rest + ", " + more)) == first + (", " + rest) + ", " + more
  {
  }

  /** The list holds exactly the unknown names, and is empty exactly when every name is known. */
  lemma {:induction false} UnknownFacts(known: set<string>, calls: seq<ToolCall>)
    ensures forall name :: name in UnknownNames(known, calls) <==>
      name !in known && exists c :: c in calls && c.name == name
    ensures UnknownNames(known, calls) == [] <==> AllKnown(known, calls)
  {
    if calls != [] {
      UnknownFacts(known, calls[1..]);
      assert forall c :: c in calls <==> c == calls[0] || c in calls[1..];
    }
  }

  /** It has one name for each call that no tool answers to, in call order. */
  lemma {:induction false} UnknownInCallOrder(known: set<string>, calls: seq<ToolCall>)
    ensures var unknown := Filter(calls, (c: ToolCall) => c.name !in known);
      && |UnknownNames(known, calls)| == |unknown|
      && forall i :: 0 <= i < |unknown| ==> UnknownNames(known, calls)[i] == unknown[i].name
  {
    if calls != [] {
      UnknownInCallOrder(known, calls[1..]);
    }
  }

  ghost predicate Mentions(text: string, part: string) {
    exists front, back :: text == front + part + back
  }

  lemma StillMentions(front: string, text: string, back: string, part: string)
    requires Mentions(text, part)
    ensures Mentions(front + text + back, part)
  {
    var before, after :| text == before + part + after;
    assert front + text + back == (front + before) + part + (after + back);
  }

  lemma MentionsIn(front: string, part: string, back: string)
    ensures Mentions(front + part + back, part)
  {
  }

  /** Every name on the list stands in the correction, in quotes. */
  lemma EveryNameIsMentioned(names: seq<string>, i: nat)
    requires i < |names|
    ensures Mentions(UnknownMessage(names), InQuotes(names[i]))
  {
    var head, list := "call_tools: no tool registered under name(s) [", Quoted(names);
    ListMentions(names, i);
    StillMentions(head, list, "]", InQuotes(names[i]));
  }

  lemma {:induction false} ListMentions(names: seq<string>, i: nat)
    requires i < |names|
    ensures Mentions(Quoted(names), InQuotes(names[i]))
  {
    var first, rest := InQuotes(names[0]), if |names| == 1 then "" else ", " + Quoted(names[1..]);
    if i == 0 {
      assert first + rest == "" + first + rest;
      MentionsIn("", first, rest);
    } else {
      ListMentions(names[1..], i - 1);
      var list := Quoted(names[1..]);
      StillMentions(first + ", ", list, "", InQuotes(names[i]));
      assert first + rest == (first + ", ") + list + "";
    }
  }

  /**
   One unknown tool name and nothing is dispatched: every unknown name is reported. Otherwise every success is
   recorded, whatever its siblings came to, and the failures are reported together, one per failed call.
   */
  method ExecuteCallTools(fs: AgentFs, known: set<string>, calls: seq<ToolCall>, results: seq<CallResult>, now: int)
    returns (r: StepResult)
    requires |results| == |calls| && IdsAreLong(results)
    modifies fs`store
    ensures r.Outcome?
    ensures !AllKnown(known, calls) ==>
      fs.store == old(fs.store) && r == Outcome([], Some(NeedsCorrection(UnknownMessage(UnknownNames(known, calls)))))
    ensures AllKnown(known, calls) ==>
      && fs.store == RecordAll(old(fs.store), calls, results, now)
      && r.recorded == PathsIn(calls, results)
      && r.failure == if FailuresIn(calls, results) == [] then None else Some(ToolError(FailuresIn(calls, results)))
  {
    var unknown := ListUnknown(known, calls);
    UnknownFacts(known, calls);
    if unknown != [] {
      return Outcome([], Some(NeedsCorrection(UnknownMessage(unknown))));
    }
    var recorded, failures := RecordResults(fs, calls, results, now);
    r := Outcome(recorded, if failures == [] then None else Some(ToolError(failures)));
  }

  method ListUnknown(known: set<string>, calls: seq<ToolCall>) returns (unknown: seq<string>)
    ensures unknown == UnknownNames(known, calls)
  {
    unknown := [];
    for i := 0 to |calls|
      invariant unknown + UnknownNames(known, calls[i..]) == UnknownNames(known, calls)
    {
      Shift(calls, i);
      var name := if calls[i].name in known then [] else [calls[i].name];
      ConcatAssoc(unknown, name, UnknownNames(known, calls[i + 1..]));
      unknown := unknown + name;
    }
    assert unknown + [] == unknown;
  }

  method RecordResults(fs: AgentFs, calls: seq<ToolCall>, results: seq<CallResult>, now: int)
    returns (recorded: seq<string>, failures: seq<ToolFailure>)
    requires |results| == |calls| && IdsAreLong(results)
    modifies fs`store
    ensures fs.store == RecordAll(old(fs.store), calls, results, now)
    ensures recorded == PathsIn(calls, results) && failures == FailuresIn(calls, results)
  {
    recorded, failures := [], [];
    for i := 0 to |calls|
      invariant RecordAll(fs.store, calls[i..], results[i..], now) == RecordAll(old(fs.store), calls, results, now)
      invariant failures + FailuresIn(calls[i..], results[i..]) == FailuresIn(calls, results)
      invariant recorded + PathsIn(calls[i..], results[i..]) == PathsIn(calls, results)
    {
      Shift(calls, i);
      Shift(results, i);
      var path, failure := RecordOne(fs, calls[i], results[i], now);
      ConcatAssoc(recorded, path, PathsIn(calls[i + 1..], results[i + 1..]));
      ConcatAssoc(failures, failure, FailuresIn(calls[i + 1..], results[i + 1..]));
      recorded, failures := recorded + path, failures + failure;
    }
    assert failures + [] == failures && recorded + [] == recorded;
  }

  method RecordOne(fs: AgentFs, call: ToolCall, result: CallResult, now: int)
    returns (path: seq<string>, failure: seq<ToolFailure>)
    requires IdIsLong(result)
    modifies fs`store
    ensures fs.store == RecordCall(old(fs.store), call, result, now)
    ensures path == PathOf(call, result) && failure == FailureOf(call, result)
  {
    match result
    case Ok(record) =>
      var relpath := fs.PutEvidence(record, call.claimSeed, now);
      path, failure := [relpath], [];
    case Err(error) =>
      path, failure := [], [ToolFailure(call.name, error)];
  }

  lemma Shift<T>(s: seq<T>, i: nat)
    requires i < |s|
    ensures s[i..][0] == s[i] && s[i..][1..] == s[i + 1..]
  {
  }

  /** A batch never disturbs evidence that was there, and every success has its file afterwards. */
  lemma {:induction false} BatchOnlyAddsEvidence(disk: Disk, calls: seq<ToolCall>, results: seq<CallResult>, now: int)
    requires |calls| == |results| && IdsAreLong(results)
    ensures EvidenceKept(disk, RecordAll(disk, calls, results, now))
    ensures forall p :: p in PathsIn(calls, results) ==> p in RecordAll(disk, calls, results, now)
    decreases |calls|
  {
    if calls != [] {
      if results[0].Ok? {
        var id := results[0].value.id;
        var f := EvidenceFilename(calls[0].claimSeed, id);
        EvidenceFilenameIsNotTheTail(calls[0].claimSeed, id);
        RecordKeepsEvidence(disk, f, results[0].value, now);
        var next := RecordEvidence(disk, f, results[0].value, now);
        BatchOnlyAddsEvidence(next, calls[1..], results[1..], now);
        assert StartsWith("evidence/" + f, "evidence/");
      } else {
        BatchOnlyAddsEvidence(disk, calls[1..], results[1..], now);
      }
    }
  }

  /** A batch never replaces a record, and of the successes that share a path it keeps the first. */
  lemma {:induction false} BatchKeepsFirstRecord(
    disk: Disk, calls: seq<ToolCall>, results: seq<CallResult>, now: int, i: nat)
    requires |calls| == |results| && IdsAreLong(results) && i < |calls| && results[i].Ok?
    requires forall j :: 0 <= j < i && results[j].Ok? ==>
      RelpathOf(calls[j], results[j]) != RelpathOf(calls[i], results[i])
    ensures var p := RelpathOf(calls[i], results[i]);
      At(RecordAll(disk, calls, results, now), p)
      == if p in disk then Some(disk[p]) else Some(Evidence(results[i].value))
    decreases |calls|
  {
    var p := RelpathOf(calls[i], results[i]);
    var next := RecordCall(disk, calls[0], results[0], now);
    CallWrites(disk, calls[0], results[0], now, p);
    if i == 0 {
      BatchOnlyAddsEvidence(next, calls[1..], results[1..], now);
      RelpathIsEvidence(calls[0], results[0]);
    } else {
      assert forall j :: 0 <= j < |calls| - 1 ==> calls[1..][j] == calls[j + 1] && results[1..][j] == results[j + 1];
      BatchKeepsFirstRecord(next, calls[1..], results[1..], now, i - 1);
    }
  }

  function RelpathOf(call: ToolCall, result: CallResult): string
    requires IdIsLong(result) && result.Ok?
  {
    EvidenceRelpath(call.claimSeed, result.value.id)
  }

  lemma RelpathIsEvidence(call: ToolCall, result: CallResult)
    requires IdIsLong(result) && result.Ok?
    ensures StartsWith(RelpathOf(call, result), "evidence/") && RelpathOf(call, result) != EvidenceDir.TailKey()
  {
    EvidenceFilenameIsNotTheTail(call.claimSeed, result.value.id);
  }

  /** What one call makes of a record's path. */
  lemma CallWrites(disk: Disk, call: ToolCall, result: CallResult, now: int, p: string)
    requires IdIsLong(result) && p != EvidenceDir.TailKey()
    ensures At(RecordCall(disk, call, result, now), p) ==
      if result.Ok? && p == RelpathOf(call, result) && p !in disk then Some(Evidence(result.value)) else At(disk, p)
  {
    if result.Ok? {
      RelpathIsEvidence(call, result);
    }
  }

  /** With ids that differ in their first eight characters and free paths, every success is stored as its own record. */
  lemma EverySuccessIsStored(disk: Disk, calls: seq<ToolCall>, results: seq<CallResult>, now: int)
    requires |calls| == |results| && IdsAreLong(results)
    requires forall i, j :: 0 <= i < j < |results| && results[i].Ok? && results[j].Ok? ==>
      results[i].value.id[..8] != results[j].value.id[..8]
    requires forall i :: 0 <= i < |results| && results[i].Ok? ==> RelpathOf(calls[i], results[i]) !in disk
    ensures forall i :: 0 <= i < |results| && results[i].Ok? ==>
      At(RecordAll(disk, calls, results, now), RelpathOf(calls[i], results[i])) == Some(Evidence(results[i].value))
  {
    var after := RecordAll(disk, calls, results, now);
    forall i | 0 <= i < |results| && results[i].Ok?
      ensures At(after, RelpathOf(calls[i], results[i])) == Some(Evidence(results[i].value))
    {
      forall j | 0 <= j < i && results[j].Ok?
        ensures RelpathOf(calls[j], results[j]) != RelpathOf(calls[i], results[i])
      {
        OnePathIff(calls[j].claimSeed, results[j].value.id, calls[i].claimSeed, results[i].value.id);
      }
      BatchKeepsFirstRecord(disk, calls, results, now, i);
    }
  }

  /** How many of the first `k` calls succeeded. */
  function Successes(results: seq<CallResult>, k: nat): (n: nat)
    requires k <= |results|
    ensures n <= k
  {
    if k == 0 then 0 else Successes(results, k - 1) + if results[k - 1].Ok? then 1 else 0
  }

  lemma {:induction false} SuccessesShift(results: seq<CallResult>, k: nat)
    requires 0 < k <= |results|
    ensures Successes(results, k) == (if results[0].Ok? then 1 else 0) + Successes(results[1..], k - 1)
  {
    if k > 1 {
      SuccessesShift(results, k - 1);
    }
  }

  /** A success's path stands behind those of the successes before it, a failure behind the failures before it. */
  lemma {:induction false} ReportedInCallOrder(calls: seq<ToolCall>, results: seq<CallResult>, k: nat)
    requires |calls| == |results| && IdsAreLong(results) && k < |calls|
    ensures var n := Successes(results, k);
      match results[k]
      case Ok(record) =>
        n < |PathsIn(calls, results)| && PathsIn(calls, results)[n] == EvidenceRelpath(calls[k].claimSeed, record.id)
      case Err(error) =>
        && k - n < |FailuresIn(calls, results)|
        && FailuresIn(calls, results)[k - n] == ToolFailure(calls[k].name, error)
    decreases k
  {
    if k > 0 {
      SuccessesShift(results, k);
      ReportedInCallOrder(calls[1..], results[1..], k - 1);
    }
  }

  lemma {:induction false} EveryCallIsAccountedFor(calls: seq<ToolCall>, results: seq<CallResult>)
    requires |calls| == |results| && IdsAreLong(results)
    ensures |PathsIn(calls, results)| + |FailuresIn(calls, results)| == |calls|
  {
    if calls != [] {
      EveryCallIsAccountedFor(calls[1..], results[1..]);
    }
  }

  // --- Outputs and notes ----------------------------------------------------------------------------------

  /** The faults that the in-process host turns into a correction for the model. */
  predicate FoldsInProcess(e: FsError) {
    e.EmptyEvidence? || e.EvidenceNotFound? || e.CitationNotEvidence?
  }

  /** An instance: a citation with a leading slash aborts the run. */
  lemma AbsoluteCitationAborts(disk: Disk)
    ensures OutputFault(disk, ["/x"]) == Some(PathTraversal("/x")) && !FoldsInProcess(PathTraversal("/x"))
    ensures IsModelFault(PathTraversal("/x"))
  {
    assert CitedKey("/x") == Err(PathTraversal("/x"));
  }

  /**
   The faults that `is_model_fault` accepts, and the workflow host turns into a correction: every filesystem fault
   but a storage fault, which is not among these; a record that does not parse is no filesystem fault.
   */
  predicate IsModelFault(e: FsError) {
    !e.MalformedEvidence?
  }

  /**
   The workflow host folds every fault of an output. The in-process host folds the same ones exactly unless the
   first citation that does not resolve is absolute or climbs out of its directory.
   */
  lemma HostsFoldAlikeIff(disk: Disk, citations: seq<string>)
    requires OutputFault(disk, citations).Some?
    ensures IsModelFault(OutputFault(disk, citations).value)
    ensures FoldsInProcess(OutputFault(disk, citations).value) == IsModelFault(OutputFault(disk, citations).value)
       <==> !exists i :: 0 <= i < |citations| && FirstBadIsTraversal(disk, citations, i)
  {
    FirstFaultIsNotMalformed(disk, citations);
    TraversalCitationEscapesTheFold(disk, citations);
  }

  lemma {:induction false} FirstFaultIsNotMalformed(disk: Disk, citations: seq<string>)
    ensures FirstFault(disk, citations).Some? ==> !FirstFault(disk, citations).value.MalformedEvidence?
  {
    if citations != [] {
      FirstFaultIsNotMalformed(disk, citations[1..]);
    }
  }

  /** What a fault reads like. A record that does not parse is told by its path. */
  function Display(e: FsError): string {
    match e
    case EmptyEvidence => "output rejected: citation list is empty (provenance contract)"
    case EvidenceNotFound(path) => "output rejected: evidence path " + path + " not found on disk"
    case CitationNotEvidence(path) => "citation rejected: " + path + " is not under evidence/"
    case OutputNotFound => "no canonical output found on disk"
    case PathTraversal(path) => "path traversal rejected: " + path
    case PathOutsideNotes(path) => "path outside notes/ rejected: " + path
    case ReservedNotesPath(path) => "path reserved (runtime-owned): " + path
    case MalformedEvidence(path) => path
  }

  /** The correction for an output whose citations do not hold. */
  function OutputCorrection(e: FsError): string {
    match e
    case EmptyEvidence => "write_output: citations list is empty (provenance contract)"
    case EvidenceNotFound(path) => "write_output: cited evidence " + path + " not found on disk"
    case CitationNotEvidence(path) => "write_output: citation " + path + " is not under evidence/"
    case _ => Display(e)
  }

  /** A correction for an output with citations spells out the first one that does not resolve. */
  lemma CorrectionNamesTheCitation(disk: Disk, citations: seq<string>, e: FsError) returns (i: nat)
    requires citations != [] && FirstFault(disk, citations) == Some(e)
    ensures i < |citations| && FailsFirst(disk, citations, i, e)
    ensures Mentions(OutputCorrection(e), citations[i])
  {
    FirstFaultIsFirst(disk, citations, e);
    i :| FailsFirst(disk, citations, i, e);
    WhyCitationFails(disk, citations[i]);
    FaultIsMentioned(e);
  }

  /** A fault that has a path spells it out, whichever way it is told. */
  lemma FaultIsMentioned(e: FsError)
    ensures !e.EmptyEvidence? && !e.OutputNotFound? ==>
      Mentions(OutputCorrection(e), e.path) && Mentions(NotesCorrection(e), e.path)
  {
    if !e.EmptyEvidence? && !e.OutputNotFound? {
      DisplayMentions(e);
      var text, head := Display(e), "rewrite_fs: ";
      StillMentions(head, text, "", e.path);
      assert head + text + "" == head + text;
      MentionsIn("write_output: cited evidence ", e.path, " not found on disk");
      MentionsIn("write_output: citation ", e.path, " is not under evidence/");
    }
  }

  lemma DisplayMentions(e: FsError)
    requires !e.EmptyEvidence? && !e.OutputNotFound?
    ensures Mentions(Display(e), e.path)
  {
    var text := Display(e);
    match e
    case EvidenceNotFound(path) => MentionsIn("output rejected: evidence path ", path, " not found on disk");
    case CitationNotEvidence(path) => MentionsIn("citation rejected: ", path, " is not under evidence/");
    case PathTraversal(path) => EndMentions("path traversal rejected: ", path);
    case PathOutsideNotes(path) => EndMentions("path outside notes/ rejected: ", path);
    case ReservedNotesPath(path) => EndMentions("path reserved (runtime-owned): ", path);
    case MalformedEvidence(path) => EndMentions("", path);
  }

  lemma EndMentions(front: string, part: string)
    ensures Mentions(front + part, part) && Mentions(part, part)
  {
    assert front + part == front + part + "";
    assert part == "" + part + "";
  }

  /** The correction for a batch of note edits with a bad path. */
  function NotesCorrection(e: FsError): string {
    "rewrite_fs: " + Display(e)
  }

  method ExecuteWriteOutput(fs: AgentFs, body: string, citations: seq<string>) returns (r: StepResult)
    modifies fs`store
    ensures OutputFault(old(fs.store), citations).None? ==>
      fs.store == old(fs.store)[OUTPUT := Text(body)] && r == Outcome([], None)
    ensures OutputFault(old(fs.store), citations).Some? ==>
      var e := OutputFault(old(fs.store), citations).value;
      && fs.store == old(fs.store)
      && r == if FoldsInProcess(e) then Outcome([], Some(NeedsCorrection(OutputCorrection(e)))) else Bubbled(e)
  {
    var written := fs.WriteOutput(body, citations);
    match written
    case Ok(_) => r := Outcome([], None);
    case Err(e) =>
      r := if FoldsInProcess(e) then Outcome([], Some(NeedsCorrection(OutputCorrection(e)))) else Bubbled(e);
  }

  /**
   The one fault of the model's own making that aborts the in-process run instead of coming back as a correction:
   the first citation that does not resolve is absolute or climbs out of its directory.
   */
  lemma TraversalCitationEscapesTheFold(disk: Disk, citations: seq<string>)
    ensures (OutputFault(disk, citations).Some? && !FoldsInProcess(OutputFault(disk, citations).value))
       <==> exists i :: 0 <= i < |citations| && FirstBadIsTraversal(disk, citations, i)
  {
    FirstFaultIsTheFirst(disk, citations);
  }

  ghost predicate FirstBadIsTraversal(disk: Disk, citations: seq<string>, i: nat)
    requires i < |citations|
  {
    CleanRelpath(citations[i]).Err? && forall j :: 0 <= j < i ==> ReadEvidence(disk, citations[j]).Ok?
  }

  lemma {:induction false} FirstFaultIsTheFirst(disk: Disk, citations: seq<string>)
    ensures (FirstFault(disk, citations).Some? && !FoldsInProcess(FirstFault(disk, citations).value))
       <==> exists i :: 0 <= i < |citations| && FirstBadIsTraversal(disk, citations, i)
  {
    if citations != [] {
      var rest := citations[1..];
      FirstFaultIsTheFirst(disk, rest);
      if ReadEvidence(disk, citations[0]).Ok? {
        if i: nat :| i < |rest| && FirstBadIsTraversal(disk, rest, i) {
          assert forall j :: 0 < j < i + 1 ==> citations[j] == rest[j - 1];
          assert FirstBadIsTraversal(disk, citations, i + 1);
        }
        if i: nat :| i < |citations| && FirstBadIsTraversal(disk, citations, i) {
          assert i > 0 && forall j :: 0 <= j < i - 1 ==> rest[j] == citations[j + 1];
          assert FirstBadIsTraversal(disk, rest, i - 1);
        }
      } else if CleanRelpath(citations[0]).Err? {
        assert FirstBadIsTraversal(disk, citations, 0);
      } else {
        forall i | 0 <= i < |citations| ensures !FirstBadIsTraversal(disk, citations, i) {
        }
      }
    }
  }

  method ExecuteRewriteFs(fs: AgentFs, ops: seq<FsOp>, now: int) returns (r: StepResult)
    modifies fs
    ensures (old(fs.Valid()) ==> fs.Valid()) && (old(fs.Clean()) ==> fs.Clean()) && r.Outcome?
    ensures r.failure.None? <==> AllPlanned(ops)
    ensures r.failure.None? ==> fs.store == ApplyAll(old(fs.store), ops, now)
    ensures r.failure.Some? ==>
      && fs.store == old(fs.store)
      && exists i, e :: StopsPlan(ops, i, e) && r == Outcome([], Some(NeedsCorrection(NotesCorrection(e))))
    ensures r.recorded == []
  {
    var applied := fs.ApplyOps(ops, now);
    r := Outcome([], if applied.Ok? then None else Some(NeedsCorrection(NotesCorrection(applied.error))));
  }
}
