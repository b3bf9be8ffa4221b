# Verified model of the coral agent runtime

This project models the parts of the coral runtime that carry state, crash points, or a fast form that stands for a
simple one, and proves what the code and its comments promise about them. `dafny verify dfyconfig.toml` checks all of it.

## The parts

- **Quiescence** (`Quiescence`, `GraphRun`, `Reaper`). The debounced detector as a class over its two remembered fields;
  the graph of agents as a state machine with late signals, one-at-a-time sampling, spawning, closing and retire
  requests; the sweep over many graphs with its trackers and tombstones.
- **Evidence ids** (`CanonicalJson`, `JsonParser`, `Evidence`). The canonical printer as the code pushes it into a
  buffer, and a parser that inverts it.
- **One agent's files** (`Paths`, `Slugs`, `RecencyTail`, `AgentStore`, `AgentFilesystem`, `AgentCore`). Path cleaning,
  slugs, the 64-entry recency index with its crash recovery and two read paths, evidence, outputs, note batches, and the
  steps a decision turns into.
- **Provenance** (`Provenance`, `ProvenanceRun`). Outputs, the file index and citation rows across two stores, first
  as operations on the stores, then write by write for many agents in any interleaving, with crashes and retries.
- **The graph compiler** (`GraphYaml`, `GraphCompiler`). The validator, the walk that lists and names agents, its
  inverse, and the builders of workflow starts and seed triggers.
- **The cycle** (`Health`, `CycleLoop`, `Inbox`). The crash-safe health file and its archive, the two nested loops with
  their retry budgets, and the inbox.
- **Tools** (`ToolRows`, `ToolDispatch`). Grouping tool rows into servers, and who may call what.

`Wrappers` and `Sorting` hold what the others share.

## How the model stands for the code

- A hash is an injective constructor: a `Sha` or an evidence id stands for the content it was computed from. Where only
  eight characters of an id are kept in a file name, no such assumption is made: `FoldPinsWhatItRead` says exactly when a
  taken path matters.
- Text is a sequence of characters; JSON numbers are their printed tokens. Counters that saturate do so in the model.
- Storage is a map from keys to contents. A put, a delete and a rename are single steps; a crash may fall between any
  two. Object and index writes are separate steps in `ProvenanceRun`, where `PutIndex` also covers a lost index write.
- A retry is the operation run again from its start. One attempt of an activity runs at a time, and an activity that has
  not completed stays in flight.
- Clocks, tool results, model decisions, server advertisements and which signals land are inputs.
- Freshly minted ids are any injective sequence; `graphs/<graph>/agents/<agent>` is a pair.
- No tool is named `reconcile`.
- In `GraphRun` a delivery, a parked agent's wait on a retire request, and a sweep are each bounded in time; a busy agent
  may stay busy for ever. Triggers from outside the graph are those already in flight or pending at the start.

## What the proofs found

- The module comment of quiescence.rs asks for a margin longer than a propagation wave. The exact bound is a delivery plus
  a wake plus a sweep, strictly: a retire request is remembered by the agent but neither counted nor reported as pending,
  so the detector has to outwait it (`MarginIsExact`).
- A spawn between a graph's listing and the end of its sweep defeats every margin, however often and regularly the sweeps
  come (`SpawnWhileSamplingDefeatsEveryMargin`), and so does a counter at its 64-bit ceiling
  (`SaturatedCounterDefeatsEveryMargin`); `Sound` excludes both. A spawn before the listing does no harm.
- A delete that hits a full index while overflow files exist leaves 63 entries that readers take for complete
  (`StepKeepsExact`, `DeleteKeepsCompleteness`). A crash between deleting a note and updating the index leaves a stale
  name. It survives a reconcile exactly when every file is indexed (`StaleOutlivesReconcileIff`), and an operation on
  another file unless that pushes it off a full index (`StaleOutlivesStepIff`). The seed's count over-reports exactly
  while the stale names past the window outnumber the unindexed files (`WindowTruthOnDisk`, `CrashedDelete`). Until a
  reconcile rebuilds the index, the files it names stay in recency order all the same (`LiveNamesFollowRecency`). A crash
  between rewriting a note and updating the index leaves the note at its old place (`CutWriteKeepsLiveIff`).
- With more than 64 files every opening orders the index by name (`OverflowIsOrderedByName`).
- The listing fallback counts directory entries, not files: its count is right exactly if no directory under `notes/` holds
  two files (`ListingWindowTruth`).
- The two read paths of recent records agree on a window smaller than the directory only if the newest names happen to be
  the last in name order (`ReadPathsAgreeIff`, `PathsAgreeForEveryOrderIff`).
- agent_core.rs says that every model mistake is folded into a correction (lines 238-243). In the in-process
  host a citation with a parent step or a leading slash is not: the error aborts the run
  (`TraversalCitationEscapesTheFold`, `AbsoluteCitationAborts`). The workflow host folds every fault of an output
  (`HostsFoldAlikeIff`).
- A citation row keeps the path as the model spelled it, so two spellings of one tool record give two rows
  (`OneFileOneRowIff`, `RespelledCitationCountsTwice`, `OneRecordTwoRows`).
- The archive of health incidents is complete exactly when no two different incidents fall into one second
  (`ArchiveIsCompleteIffStampsDiffer`); health.rs lines 380-383 argue that file names are unique.
- A cycle cut by the fuse leaves the health record untouched: it neither recovers nor fails (`CycleLoop.Agent.Cycle`).
- The comment on the validator puts the check for agents before that of the document's name (yaml.rs lines 402-405); the
  code checks the name first (`FirstCheckThatFails`).

## Model

| member | source | states |
|---|---|---|
| GraphRun.MarginIsExact | crates/coral_temporal/src/quiescence.rs:10-28 | over every run of waking, sending, late-delivering, spawning and closing agents, listed some time after the sweep's clock reading and sampled one at a time, `Retire` is safe exactly when the margin exceeds a delivery plus a wake plus a sweep |
| GraphRun.MarginSuffices | crates/coral_temporal/src/quiescence.rs:10-28 | with such a margin, on every run, a retired graph has no signal in flight and every live agent parked with nothing to end its wait |
| GraphRun.MarginTooShort | crates/coral_temporal/src/quiescence.rs:105-115 | with any shorter margin some run retires a graph that is about to act: a retire request is neither counted nor pending in a sample |
| GraphRun.RetireMeansDead | crates/coral_worker/src/reaper.rs:117-133 | in any state meeting the invariant, a verdict of `Retire` at the end of a sweep means the graph is dead |
| GraphRun.InvAlongRun | crates/coral_worker/src/reaper.rs:93-143 | the invariant relating the tracker's window to everything still under way holds along every run |
| GraphRun.DeadForever | crates/coral_temporal/src/quiescence.rs:20-24 | from a dead graph no later step wakes, sends, delivers or spawns |
| GraphRun.SpawnWhileSamplingDefeatsEveryMargin | crates/coral_worker/src/reaper.rs:109-117 | if agents may be spawned between the listing and the end of a sweep, then for every margin and every fixed interval between sweeps some run retires a graph that is alive |
| GraphRun.SaturatedCounterDefeatsEveryMargin | crates/coral_temporal/src/quiescence.rs:65-79 | a cumulative counter at its 64-bit ceiling hides a wake from the digest, and no margin makes `Retire` safe |
| GraphRun.NextKeepsQuiet | crates/coral_temporal/src/quiescence.rs:51-58 | a step never lowers a counter, never revives a closed or retiring agent, and leaves a quiescent agent's snapshot alone unless a counter moves |
| GraphRun.DeadStep | crates/coral_temporal/src/quiescence.rs:20-24 | one step keeps a dead graph dead |
| GraphRun.DeadGraphIsRetired | crates/coral_temporal/src/quiescence.rs:20-24 | every dead graph is retired: once two whole sweeps of a dead graph with a live agent have read the clock the margin apart, with no agent closing and no sweep given up, the second one's verdict is `Retire`, unless one was before |
| GraphRun.QuiescentIffUnwakeable | crates/coral_temporal/src/quiescence.rs:51-58 | an agent is taken for quiescent exactly if it is parked and nothing can end its wait, a retire request aside |
| GraphRun.SweepsAgree | crates/coral_temporal/src/quiescence.rs:60-79 | two whole sweeps of agents at rest show one digest, whatever order they list the agents in |
| Quiescence.GraphQuiescence.Observe | crates/coral_temporal/src/quiescence.rs:119-143 | the verdict is `Retire` exactly when the observed history calls for it; the two fields move as the pure step says |
| Quiescence.DebounceRefinesHistory | crates/coral_temporal/src/quiescence.rs:86-94 | over every history: `Retire` exactly when the longest suffix of quiescent samples with equal membership and counters has a repeat sample and spans the margin |
| Quiescence.NextTracks | crates/coral_temporal/src/quiescence.rs:127-142 | one more sample keeps the two fields equal to the start and activity of the longest stable suffix |
| Quiescence.FiresOnceTheWindowHasElapsed | crates/coral_temporal/src/quiescence.rs:117-136 | with a monotone clock it fires exactly when some stable stretch with a repeat sample spans the margin |
| Quiescence.DigestIsOrderFree | crates/coral_temporal/src/quiescence.rs:60-79 | two samples have one digest exactly when they show the same agents with the same counters, in whatever order |
| Quiescence.QuiescentIsAsleep | crates/coral_temporal/src/quiescence.rs:51-58 | the test is exactly: parked, nothing queued, and no self-wake timer armed |
| Quiescence.ListingOrderIsIrrelevant | crates/coral_temporal/src/quiescence.rs:119-143 | listing the agents in another order changes neither the verdict nor the remembered state |
| Reaper.Sweeper.Sweep | crates/coral_worker/src/reaper.rs:93-143 | after one pass over all graphs each graph's history and tombstone are what a pass over it alone gives, and exactly the due graphs are signalled, each with all its running agents in listing order; a graph with an agent that could not be read is not signalled and loses its history |
| Reaper.Sweeper.VisitGraph | crates/coral_worker/src/reaper.rs:105-140 | one graph's part of a sweep, with its early exits, moves that graph as specified and no other |
| Reaper.Sweeper.Observe | crates/coral_worker/src/reaper.rs:118-122 | the graph's tracker, made if missing, takes in exactly this sample |
| Reaper.Sweeper.KeepListed | crates/coral_worker/src/reaper.rs:101-103 | trackers of graphs no longer listed are dropped, the others kept |
| Reaper.ObserveGraph | crates/coral_worker/src/reaper.rs:165-207 | an observation exactly if no agent failed to answer and some agent runs, and then the running agents in listing order |
| Reaper.SeenIffReadable | crates/coral_worker/src/reaper.rs:109-138 | the same of a listing, which may itself have failed |
| Reaper.RetireGraph | crates/coral_worker/src/reaper.rs:212-235 | every agent is signalled in order, also after a failure; true exactly if all signals landed |
| Reaper.SignalledIffHistoryIsDue | crates/coral_worker/src/reaper.rs:117-133 | a graph is signalled exactly if it has no tombstone and its unbroken history, this sample included, is due |
| Reaper.HistoryIsUnbrokenStretch | crates/coral_worker/src/reaper.rs:101-138 | over every sequence of sweeps: what a graph without a tombstone is judged on is one sample, with clock reading and running agents, for each sweep since the last that did not list it, could not read it or signalled it |
| Reaper.TombstoneIsFinal | crates/coral_worker/src/reaper.rs:105-133 | over every sequence of sweeps: after a sweep whose retire signals all landed, no later sweep signals the graph |
| Reaper.TombstoneIsABurial | crates/coral_worker/src/reaper.rs:121-132 | over every sequence of sweeps: a graph that gained a tombstone was signalled in some sweep, and all its signals landed |
| Reaper.VisitIsTrackerStep | crates/coral_worker/src/reaper.rs:105-140 | a visit moves the tracker and yields a verdict as one step of the detector on the visit's observation does; the graph model ends its sweeps by that step |
| Evidence.EvidenceIdsDecideCalls | crates/coral_node/src/evidence.rs:23-43 | two evidence ids are equal exactly when tool, arguments and result are equal up to object key order |
| Evidence.EnvelopesDecideCalls | crates/coral_node/src/evidence.rs:23-43 | the same for the hashed bytes |
| Evidence.EnvelopeDecodes | crates/coral_node/src/evidence.rs:23-40 | the envelope is the canonical print of an object with the three parts, and parses back to it |
| Evidence.EnvelopeIsInKeyOrder | crates/coral_node/src/evidence.rs:23-40 | the envelope's three keys, and the keys of every object in it, come in lexicographic order |
| Evidence.EvidenceId | crates/coral_node/src/evidence.rs:23-43 | the pushed bytes are exactly the envelope |
| Evidence.WriteCanonical | crates/coral_node/src/evidence.rs:100-134 | the recursive writer appends exactly the print of the value with all keys sorted |
| Evidence.WriteItems | crates/coral_node/src/evidence.rs:109-118 | array items, comma separated, in order |
| Evidence.WriteMembers | crates/coral_node/src/evidence.rs:119-133 | members in key order, each key once, each with its own value |
| JsonParser.ValueRoundTrip | crates/coral_node/src/evidence.rs:100-134 | a parser takes back every printed value, nested at any depth, whatever follows it, provided that cannot extend a number |
| JsonParser.StringRoundTrip | crates/coral_node/src/evidence.rs:137-141 | escaping loses nothing |
| JsonParser.BodyIsShortest | crates/coral_node/src/evidence.rs:137-141 | any other text that reads as the same string is longer than the one written, so escapes are short where a short one exists and control characters alone are escaped |
| JsonParser.NumberRoundTrip | crates/coral_node/src/evidence.rs:105-107 | a number token ends where a comma, a bracket or the text ends |
| JsonParser.CanonicalTextDecides | crates/coral_node/src/evidence.rs:95-99 | canonical texts are equal exactly when the values are, up to key order |
| CanonicalJson.NormalDecides | crates/coral_node/src/evidence.rs:119-133 | sorting keys at every depth forgets exactly key order |
| CanonicalJson.NormalIsInKeyOrder | crates/coral_node/src/evidence.rs:119-133 | what is printed has the members of every object in lexicographic order of their keys |
| Sorting.StrLeIsLexicographic | crates/coral_node/src/evidence.rs:119-121 | strings are compared as a dictionary does: a prefix first, else by the first character that differs |
| RecencyTail.TailCachesRecency | crates/coral_node/src/fs.rs:1133-1190 | over every run of writes and deletes the stored index has no duplicates, at most 64 entries, and is a prefix of the unbounded most-recent-first list of live notes |
| RecencyTail.TailStep | crates/coral_node/src/fs.rs:1133-1190 | one write or delete keeps that |
| RecencyTail.StepKeepsExact | crates/coral_node/src/fs.rs:1168-1190 | an index that misses nothing it has room for stays so exactly unless a delete hits a full index with overflow |
| RecencyTail.ExactAlongRun | crates/coral_node/src/fs.rs:1133-1190 | and hence along every run without such a delete |
| RecencyTail.StampIsLastWrite | crates/coral_node/src/fs.rs:1133-1190 | over every run, a stamp on the index is the time its file was last written, and nothing has touched the file since |
| RecencyTail.LiveNamesFollowRecency | crates/coral_node/src/fs.rs:1133-1190 | over every run of writes, deletes and deletes cut before the index is written, from any bounded index without repeats: the names on it that have files are, in order, the newest files |
| RecencyTail.LiveStep | crates/coral_node/src/fs.rs:1133-1190 | one write or delete keeps that, whatever names are stale |
| RecencyTail.CutDeleteKeepsLive | crates/coral_node/src/fs.rs:664-687 | so does a delete cut between the file and the index |
| RecencyTail.CutWriteKeepsLiveIff | crates/coral_node/src/fs.rs:664-687 | a write cut there keeps it exactly if the index names no file, or names the one just written first |
| RecencyTail.CachesLive | crates/coral_node/src/fs.rs:1133-1190 | an index without stale names is the special case |
| RecencyTail.WindowIsALowerBound | crates/coral_node/src/fs.rs:1010-1048 | the window shows the newest names, as many as asked for and indexed; its claim about the rest covers every further indexed name and is never more than there is |
| RecencyTail.WindowShowsNewestFiles | crates/coral_node/src/fs.rs:1010-1048 | whatever stale names it shows, the files the window shows are the newest, in order |
| RecencyTail.WindowTruth | crates/coral_node/src/fs.rs:1010-1048 | its claim is literally true exactly when the index is full or complete |
| RecencyTail.PinKeepsCountsRight | crates/coral_node/src/agent_core.rs:156-175 | pinning puts the status note in front and repeats no name; the count of the rest never over-reports, leaves out no indexed note, never says `Exactly(0)`, and stays true where it was |
| RecencyTail.ReconcileRestoresCompleteness | crates/coral_node/src/fs.rs:427-504 | from any index whatever, reconciling makes an index below capacity name every record on disk |
| RecencyTail.ReconcileIsIdempotent | crates/coral_node/src/fs.rs:464-495 | a second reconcile changes no entry and no timestamp |
| RecencyTail.RebuildKeepsStamps | crates/coral_node/src/fs.rs:474-495 | a name that a rebuild keeps keeps its last timestamp, and a new one gets the time of the rebuild |
| RecencyTail.RebuildIsGreatestFirst | crates/coral_node/src/fs.rs:482-495 | a rebuilt index lists the greatest names on disk, greatest first, as many as fit, with the last stamps they had or else the time of the rebuild |
| RecencyTail.WriteKeepsCompleteness | crates/coral_node/src/fs.rs:1133-1160 | every later first write keeps an index below capacity complete, stale entries or not |
| RecencyTail.DeleteKeepsCompleteness | crates/coral_node/src/fs.rs:1168-1190 | a delete keeps it so exactly unless it empties a slot of a full index that overflow files are waiting for |
| RecencyTail.ReadPathsAgree | crates/coral_node/src/fs.rs:1209-1347 | below capacity, a window covering the index reads the same records by index and by listing |
| RecencyTail.ReadPathsAgreeIff | crates/coral_node/src/fs.rs:1251-1347 | below capacity and for every window, stale names included: the two paths agree exactly when every file is in the window, or the window has no stale name and each of its names comes after every file left out |
| RecencyTail.PathsAgreeForEveryOrderIff | crates/coral_node/src/fs.rs:1209-1347 | they agree whatever the write order exactly when the window covers the directory |
| RecencyTail.ReadPathsDifferOnSmallWindows | crates/coral_node/src/fs.rs:1251-1347 | for every directory and every smaller window there is a write order after which they differ |
| RecencyTail.WindowTruthOnDisk | crates/coral_node/src/fs.rs:1010-1048 | for every index, stale names included: the claim is true of the files on disk not shown exactly when the stale names past the window are as many as the unindexed files, or, for a full index, no more than these; it over-reports exactly when they are more |
| RecencyTail.CompleteWindowTruth | crates/coral_node/src/fs.rs:1010-1048 | for an index complete below capacity: exactly when no name past the window is stale |
| RecencyTail.PinKeepsTruthOnDisk | crates/coral_node/src/agent_core.rs:156-175 | pinning keeps a true claim true and a false one false, stale names or not |
| RecencyTail.CrashedDelete | crates/coral_node/src/fs.rs:664-687 | after a crash between deleting a note and updating an exact index: the stale name survives the next reconcile exactly if no file has fallen off the index, and the count is right exactly if the name is in the window or some file has |
| RecencyTail.StaleOutlivesReconcileIff | crates/coral_node/src/fs.rs:464-495 | a stale name survives a reconcile exactly when every file on disk is indexed |
| RecencyTail.StaleOutlivesStepIff | crates/coral_node/src/fs.rs:1133-1190 | it survives an operation on another file exactly unless that pushes it off a full index |
| RecencyTail.OverflowIsOrderedByName | crates/coral_node/src/fs.rs:482-495 | with more files than the index holds, every reconcile leaves the 64 greatest names, greatest first, whatever order the index had |
| RecencyTail.ListReadIsUpperPart | crates/coral_node/src/fs.rs:1315-1323 | a read off the listing yields its greatest names, in ascending order |
| AgentFilesystem.AgentFs.Open | crates/coral_node/src/fs.rs:336-375 | opening restores both indexes and touches no other key; a bounded notes index without repeats, stale names or not, goes with a recency list again, and without stale names it caches one |
| AgentFilesystem.AgentFs.Reconcile | crates/coral_node/src/fs.rs:427-504 | an index that names every file is left alone; any other lists the greatest names on disk, greatest first, with the stamps they had; only the index key may change |
| AgentFilesystem.AgentFs.AppendTail | crates/coral_node/src/fs.rs:1133-1160 | retain, insert in front, truncate and store equal the specified index |
| AgentFilesystem.AgentFs.RemoveTail | crates/coral_node/src/fs.rs:1168-1190 | retain and store equal the specified index; nothing is stored when nothing was dropped |
| AgentFilesystem.AgentFs.PutEvidence | crates/coral_node/src/fs.rs:531-555 | first write wins, no other key but the index changes, the returned path is taken, and completeness below capacity is kept |
| AgentFilesystem.AgentFs.WriteOutput | crates/coral_node/src/fs.rs:618-642 | the output is replaced exactly when there is a citation and every citation resolves; otherwise nothing changes and the error is that of the first citation that fails |
| AgentFilesystem.AgentFs.ApplyOps | crates/coral_node/src/fs.rs:648-690 | on any store: one bad path and nothing changes; otherwise disk and recency list are the fold of the operations, and an index that followed the recency list goes on following it |
| AgentFilesystem.AgentFs.ApplyOne | crates/coral_node/src/fs.rs:664-687 | one operation moves disk, index and recency list together, on any store |
| AgentFilesystem.AgentFs.FirstBadPath | crates/coral_node/src/fs.rs:649-662 | planning accepts exactly the batches whose every path is writable |
| AgentFilesystem.AgentFs.RecentNotes | crates/coral_node/src/fs.rs:1010-1062 | the window off a readable index, else off the directory listing |
| AgentFilesystem.AgentFs.SeedNotes | crates/coral_node/src/agent_core.rs:156-175 | the index or listing window with the standing note pinned; of a complete index it counts the files on disk right exactly if no name past the window is stale; of a valid one it repeats no note, never over-reports, and counts right when the index is exact |
| AgentFilesystem.AgentFs.RecentEvidence | crates/coral_node/src/fs.rs:1209-1347 | the read follows the index or the listing; where the index misses nothing and the window covers it, it yields every record in order either way |
| AgentFilesystem.ListingWindowTruth | crates/coral_node/src/fs.rs:1049-1061 | without an index the count never over-reports; it is true of the number of files exactly if no directory under `notes/` holds two, and of the files not shown exactly if besides every name shown is a file |
| AgentFilesystem.ListingCountsDirectoriesNotFiles | crates/coral_node/src/fs.rs:882-913 | the listing has one entry per note exactly if no directory under `notes/` holds two |
| AgentFilesystem.TwoNotesCountedOnce | crates/coral_node/src/fs.rs:882-913 | an instance: two notes in one directory are one entry |
| AgentFilesystem.OpMovesFiles | crates/coral_node/src/fs.rs:664-687 | an operation adds or removes exactly the file it names |
| AgentStore.BatchIsLastWordPerKey | crates/coral_node/src/fs.rs:648-690 | an accepted batch leaves each key as its last operation on it says, and every key it does not name as it was |
| AgentStore.BatchStaysInNotes | crates/coral_node/src/fs.rs:598-604 | no batch reaches outside `notes/`, so evidence is never altered or removed |
| AgentStore.OpMovesTail | crates/coral_node/src/fs.rs:664-687 | an operation moves the stored index as the specification does |
| AgentStore.NoFaultMeansAllResolve | crates/coral_node/src/fs.rs:625-629 | the check stops at nothing exactly when every citation resolves |
| AgentStore.WhyCitationFails | crates/coral_node/src/fs.rs:556-606 | a citation fails for the first of three reasons, read off its parts: it is absolute or climbs, it leads elsewhere than to a file in `evidence/`, there is no such file; the error carries the path as spelled |
| AgentStore.FirstFaultIsFirst | crates/coral_node/src/fs.rs:618-642 | the fault reported is that of the first citation that fails |
| AgentStore.OnePathIff | crates/coral_node/src/fs.rs:279-287 | two records share a path exactly if their seeds have one slug and their ids begin with the same eight characters |
| AgentStore.EvidenceIsNamedAfterItsSeed | crates/coral_node/src/fs.rs:279-287 | a record is named after the words of its seed and eight characters of its id, by these alone if the seed has no word |
| AgentStore.PlanKey | crates/coral_node/src/fs.rs:651-662 | a planned key is a record inside `notes/` and not the index |
| AgentStore.WhyOpIsTurnedDown | crates/coral_node/src/fs.rs:649-662 | an operation is turned down for the first of three reasons, read off the parts of its path: it is absolute, climbs or is empty; it is not inside `notes/`; its last part is the index's name; the error carries the path as spelled |
| Paths.WritableIsInsideNotes | crates/coral_node/src/fs.rs:1359-1399 | a path is writable exactly when it cleans to something inside `notes/`, and its key is that cleaned path |
| Paths.WritableKeyIsCanonical | crates/coral_node/src/fs.rs:1359-1399 | a writable key resolves to itself and names no parent directory |
| Paths.CleanIsIdempotent | crates/coral_node/src/fs.rs:1089-1105 | a cleaned path is its own cleaning |
| Paths.RespelledIsTheSame | crates/coral_node/src/fs.rs:1089-1108 | every relative path has another spelling that cleans to the same path |
| Slugs.Slug | crates/coral_node/src/fs.rs:224-247 | the loop computes the slug |
| Slugs.Trim | crates/coral_node/src/fs.rs:237-239 | trailing dashes are popped |
| Slugs.SlugsAreFixpoints | crates/coral_node/src/fs.rs:212-247 | a slug is short, lower-case kebab, and slugs are exactly the strings slugging leaves alone |
| Slugs.SlugIsItsWords | crates/coral_node/src/fs.rs:224-247 | a slug is the runs of ASCII letters and digits of its seed, in lower case, joined by single dashes; of a longer text the first eighty characters, less a dash at the end |
| Slugs.BodyIsKebabOfWords | crates/coral_node/src/fs.rs:224-238 | before trimming there is at most one dash behind the words |
| Provenance.TwoStores.PersistOutput | crates/coral_temporal/src/activities.rs:497-533 | an attempt cut after any number of writes, or stopped by a record that does not parse, leaves exactly that prefix of the writes; one that succeeds has published the body with one row per citation; a citation that does not resolve stops it before the first write |
| Provenance.RetriesConverge | crates/coral_temporal/src/activities.rs:497-533 | any number of attempts, each cut anywhere, followed by one that completes, end where one uninterrupted call ends |
| Provenance.UninterruptedPublishes | crates/coral_temporal/src/activities.rs:497-533 | one whole call leaves the body on file, its version in the index and one row for each citation, that row pinning what the citation leads to, and moves nothing else |
| Provenance.RowsRestOnIndexRestsOnFile | crates/coral_temporal/src/activities.rs:497-533 | wherever an attempt is cut, a new row's version is indexed, an indexed version is that of the file, and rows come in citation order |
| Provenance.ResolveIsStable | crates/coral_temporal/src/activities.rs:542-574 | while evidence files stay, a resolved citation keeps its pin |
| Provenance.RowsAreStable | crates/coral_temporal/src/activities.rs:518-531 | and so do the citation rows it yields |
| Provenance.OneFileOneRowIff | crates/coral_temporal/src/activities.rs:542-574 | two citations of one file make one row exactly if they are spelled alike or the file is the record of a fold |
| Provenance.RespelledCitationCountsTwice | crates/coral_temporal/src/activities.rs:518-531 | any citation of a tool's record can be spelled another way, and the two make two rows |
| Provenance.OneRecordTwoRows | crates/coral_temporal/src/activities.rs:518-531 | an instance: one tool record cited in two spellings gives two rows |
| Provenance.TwoStores.ReconcileChildren | crates/coral_temporal/src/activities.rs:1087-1157 | succeeds exactly when every child has an output; then one record per source at the returned path, else nothing is written |
| Provenance.TwoStores.ReadChildren | crates/coral_temporal/src/activities.rs:1107-1134 | all bodies in order, or the first source whose child has no output |
| Provenance.TwoStores.RecordFolds | crates/coral_temporal/src/activities.rs:1136-1157 | one record per source, in order, on the parent's files only |
| Provenance.FoldsKeepEvidence | crates/coral_temporal/src/activities.rs:1136-1157 | folding only adds evidence, and every fold has a file at its path |
| Provenance.FoldPinsWhatItRead | crates/coral_temporal/src/activities.rs:1138-1156 | citing the returned path pins the version read exactly unless the path, which keeps eight characters of the id, already held another pin |
| Provenance.FirstFoldIsKept | crates/coral_temporal/src/activities.rs:1136-1157 | a path that was free holds after all folds the record of the first fold that leads there: its id, the child at the version read, the body and the time |
| Provenance.FoldIsNamedAfterWorkflow | crates/coral_temporal/src/activities.rs:1153-1154 | the record's file is named `reconcile-`, the slug of the child's workflow id, and eight characters of the evidence id |
| ProvenanceRun.PersistConverges | crates/coral_temporal/src/activities.rs:497-533 | in any interleaving with other agents, crashes and retries, an output ends with the file, indexed version and rows of one uninterrupted call |
| ProvenanceRun.EveryOutputCanEnd | crates/coral_temporal/src/activities.rs:497-533 | from every reachable state, whatever crashed before, an output in flight can be brought to its end: accepted in full, or turned down |
| ProvenanceRun.EveryFoldCanEnd | crates/coral_temporal/src/activities.rs:1087-1157 | and so can a fold in flight |
| ProvenanceRun.NoDanglingPins | crates/coral_temporal/src/activities.rs:518-574 | in every reachable state: a citing version was published by the citing agent; a within-agent pin is the version of the evidence file on disk; a cross-agent pin is a version the child published |
| ProvenanceRun.EvidenceForever | crates/coral_node/src/fs.rs:531-555 | what a path resolves to once, it resolves to for ever after |
| ProvenanceRun.AcceptedCitationsResolve | crates/coral_node/src/fs.rs:618-642 | every citation an output was ever accepted with still resolves |
| ProvenanceRun.StalePinIsExact | crates/coral_temporal/src/activities.rs:536-541 | with no output of the child in flight, a pin differs from its indexed version exactly when its body has moved on |
| ProvenanceRun.RejectedFoldWroteNothing | crates/coral_temporal/src/activities.rs:1107-1134 | a fold turned down for a missing child output has written no record, in no attempt |
| ProvenanceRun.StepKeepsInv | crates/coral_temporal/src/activities.rs:497-574 | every write, crash, retry and completion keeps the invariant, and never removes evidence, publications or rows |
| ProvenanceRun.RunKeepsInv | crates/coral_temporal/src/activities.rs:497-574 | so does every run |
| ProvenanceRun.RejectedWasNeverWritten | crates/coral_temporal/src/activities.rs:219-231 | an output that is turned down had not been written by an earlier attempt |
| AgentCore.ExecuteCallTools | crates/coral_node/src/agent_core.rs:376-437 | one unknown name and nothing is dispatched, and the correction lists every unknown name in call order; otherwise every success is recorded in call order and the failures are reported together |
| AgentCore.UnknownFacts | crates/coral_node/src/agent_core.rs:383-394 | the listed names are exactly the unknown ones, and there are none exactly when every tool is registered |
| AgentCore.UnknownInCallOrder | crates/coral_node/src/agent_core.rs:383-389 | one name for each call that no tool answers to, in call order |
| AgentCore.EveryNameIsMentioned | crates/coral_node/src/agent_core.rs:390-394 | every unknown name stands in the correction, in quotes |
| AgentCore.PlainNameIsItself | crates/coral_node/src/agent_core.rs:390-394 | a name without quotes, backslashes or control characters is spelled as it is |
| AgentCore.SpellingTellsNames | crates/coral_node/src/agent_core.rs:390-394 | different names are spelled differently |
| AgentCore.QuotedIsAList | crates/coral_node/src/agent_core.rs:390-394 | the names are listed in quotes with a comma and a blank between any two |
| AgentCore.BatchOnlyAddsEvidence | crates/coral_node/src/agent_core.rs:403-423 | a batch disturbs no evidence, and every success has its file afterwards |
| AgentCore.BatchKeepsFirstRecord | crates/coral_node/src/agent_core.rs:403-423 | of the successes that share a path the first is kept, unless a record was there before |
| AgentCore.EverySuccessIsStored | crates/coral_node/src/agent_core.rs:403-423 | with ids that differ in their first eight characters and free paths, every success is stored as its own record |
| AgentCore.ReportedInCallOrder | crates/coral_node/src/agent_core.rs:403-437 | the path of a success and the failure of a failed call stand in call order, each with its own call's name and outcome |
| AgentCore.EveryCallIsAccountedFor | crates/coral_node/src/agent_core.rs:403-437 | each call is either a recorded path or a reported failure |
| AgentCore.ExecuteWriteOutput | crates/coral_node/src/agent_core.rs:258-276 | a resolvable output is written; a fault writes nothing and comes back as the correction for that fault, except the faults that are not folded, which abort with the fault itself |
| AgentCore.CorrectionNamesTheCitation | crates/coral_node/src/agent_core.rs:262-272 | the correction spells out the first citation that does not resolve |
| AgentCore.TraversalCitationEscapesTheFold | crates/coral_node/src/agent_core.rs:260-276 | a fault aborts the run exactly when the first citation that does not resolve is absolute or contains a parent step |
| AgentCore.AbsoluteCitationAborts | crates/coral_node/src/agent_core.rs:260-276 | an instance: a citation with a leading slash aborts the run |
| AgentCore.HostsFoldAlikeIff | crates/coral_node/src/agent_core.rs:238-276 | the workflow host's test accepts every fault of an output; the in-process host folds the same faults exactly unless the first unresolvable citation is absolute or contains a parent step |
| AgentCore.ExecuteRewriteFs | crates/coral_node/src/agent_core.rs:277-286 | a bad batch changes nothing and its correction tells the first bad path; a good one is the fold of its operations |
| AgentCore.FaultIsMentioned | crates/coral_node/src/agent_core.rs:262-286 | a fault that has a path spells it out in either correction |
| GraphYaml.Validate | crates/coral_graph/src/yaml.rs:406-471 | accepts exactly the documents meeting a flat predicate over the listed agents, tools and seeds, and otherwise reports the first of all the document's faults in document order |
| GraphYaml.FaultsDecideValidity | crates/coral_graph/src/yaml.rs:400-471 | the list of a document's faults is empty exactly when the document is valid, and every fault on it is real |
| GraphYaml.FirstCheckThatFails | crates/coral_graph/src/yaml.rs:406-521 | the fault reported is that of the first check that fails: version, kind, name, agents, then tool by tool, then agent by agent in preorder with parent, name, earlier ids, cadence and tools in turn, then seed by seed |
| GraphYaml.FaultFreeIff | crates/coral_graph/src/yaml.rs:476-520 | the listed agents have no fault exactly when the flat condition on the listing holds |
| GraphYaml.EveryFaultIsReal | crates/coral_graph/src/yaml.rs:476-520 | a listed fault names an agent that has it |
| GraphYaml.ValidateAgentTree | crates/coral_graph/src/yaml.rs:476-520 | the recursion with early returns and accumulated ids reports the first fault of the tree's flat listing, accepts exactly the trees whose listing is fine and disjoint from the ids seen, and returns the ids seen |
| GraphYaml.ValidateChildren | crates/coral_graph/src/yaml.rs:509-518 | the loop over the children reports the first fault of their listing, the parent-equals-child check included |
| GraphYaml.ValidateAgent | crates/coral_graph/src/yaml.rs:482-508 | the checks of one agent report its first fault |
| GraphYaml.ValidateForest | crates/coral_graph/src/yaml.rs:446-452 | the same for the whole forest |
| GraphYaml.ValidateTools | crates/coral_graph/src/yaml.rs:429-444 | reports the first of the tools' faults; accepts exactly distinct tool ids and no blank server command |
| GraphYaml.ValidateSeeds | crates/coral_graph/src/yaml.rs:454-468 | reports the first of the seeds' faults |
| GraphYaml.IsUrlPathSafeName | crates/coral_graph/src/yaml.rs:386-398 | exactly the names matching the documented pattern |
| GraphYaml.CyclicChildrenIsADuplicate | crates/coral_graph/src/yaml.rs:508-516 | the parent-equals-child check rejects nothing that uniqueness would accept |
| GraphYaml.AgentsOkConcat | crates/coral_graph/src/yaml.rs:476-520 | checking a list is checking its front and then its back with the front's ids taken |
| GraphYaml.TreeIsRootAndChildren | crates/coral_graph/src/yaml.rs:476-520 | checking a tree is checking its root and then its children with the root's id taken |
| GraphCompiler.AppliedGraphDeterminesForest | crates/coral_graph/src/store.rs:565-639 | the parents-first list with parent ids rebuilds exactly the forest, child order included; edges are agents less roots |
| GraphCompiler.RebuildInvertsFlatten | crates/coral_graph/src/store.rs:565-639 | rebuilding inverts flattening for every forest under any earlier parent |
| GraphCompiler.IdMapIsBijective | crates/coral_graph/src/store.rs:605-622 | the id map and the agent list are one bijection between operator ids and minted ids |
| GraphCompiler.FlattenFacts | crates/coral_graph/src/store.rs:565-639 | the list is the preorder, ids are minted in order, and a parent's id was minted earlier |
| GraphCompiler.EdgeCount | crates/coral_graph/src/store.rs:594-605 | one edge per agent that has a parent |
| GraphCompiler.EdgesLeadFromParents | crates/coral_graph/src/store.rs:594-605 | there is an edge row from one id to another exactly if a listed agent has the second and the first as its parent |
| GraphCompiler.Transaction.WalkAgentTree | crates/coral_graph/src/store.rs:565-639 | the recursive walk appends exactly the tree's stretch to the list, and rows, edges and map follow it |
| GraphCompiler.Transaction.WalkForest | crates/coral_graph/src/store.rs:514-525 | so does the walk over all roots or all children |
| GraphCompiler.Transaction.Insert | crates/coral_graph/src/store.rs:572-622 | one agent's row, edge and map entry agree with its place in the list |
| GraphCompiler.CreateFromYaml | crates/coral_graph/src/store.rs:425-536 | a taken name is turned down; otherwise the result is the walk of the document |
| GraphCompiler.ResolveMandate | crates/coral_graph/src/yaml.rs:532-547 | succeeds exactly when a cadence is resolvable; the inline cadence wins over the default |
| GraphCompiler.BuildWorkflowStarts | crates/coral_graph/src/yaml.rs:743-796 | on a document with distinct ids and cadences, and the walk's result, no `expect` fires and every agent gets its own start in order |
| GraphCompiler.BuildStart | crates/coral_graph/src/yaml.rs:750-793 | each lookup of one iteration succeeds, and the start carries the agent's mandate and its parent's workflow |
| GraphCompiler.IndexAgents | crates/coral_graph/src/yaml.rs:801-806 | the index is filled in preorder |
| GraphCompiler.IndexForest | crates/coral_graph/src/yaml.rs:744-747 | for all roots in order |
| GraphCompiler.IndexedIndexes | crates/coral_graph/src/yaml.rs:798-806 | with distinct ids every agent is found under its own id |
| GraphCompiler.FindByDbId | crates/coral_graph/src/yaml.rs:768-773 | finds an agent with the id exactly when there is one |
| GraphCompiler.StartsAreOrdered | crates/coral_graph/src/yaml.rs:725-729 | start ids are pairwise distinct, and a child's parent is a strictly earlier start |
| GraphCompiler.YamlSeedTriggers | crates/coral_graph/src/yaml.rs:844-867 | succeeds exactly when every target is mapped; then one resolved trigger per seed, in order; otherwise the error names the first target that is not |
| GraphCompiler.ValidatedCompiles | crates/coral_graph/src/yaml.rs:730-742 | a validated document and what the walk made of it leave no lookup of the builders unanswered |
| GraphCompiler.AppliedIsParentsFirst | crates/coral_graph/src/yaml.rs:734-742 | the walk's result lists parents first with a complete id map |
| GraphCompiler.Compile | crates/coral_graph/src/yaml.rs:406-867 | the pipeline fails exactly on an invalid document or a taken name, invalidity coming first; otherwise every agent has its start and every seed its workflow |
| Health.HealthTracker.Open | crates/coral_node/src/health.rs:215-255 | a present record is taken at its word or refused with the decoding error; an absent one is written as healthy |
| Health.ReadBackMeans | crates/coral_node/src/health.rs:224-246 | a file is read as the state it records, or refused because it does not parse, has another version, or is unhealthy without an incident |
| Health.StatesReadBack | crates/coral_node/src/health.rs:224-246 | either state is read back as it was written |
| Health.HealthTracker.RecordFailure | crates/coral_node/src/health.rs:286-303 | one slot of the kind's allowance is spent, saturating; overspent exactly past the maximum |
| Health.HealthTracker.TransitionToUnhealthy | crates/coral_node/src/health.rs:311-322 | the live file and state become the incident through the listed file states |
| Health.HealthTracker.MarkTickSuccess | crates/coral_node/src/health.rs:335-348 | an unhealthy agent recovers through the listed file states, a healthy one writes nothing; the counters are reset |
| Health.HealthTracker.ArchiveCurrent | crates/coral_node/src/health.rs:372-391 | a byte copy of the live file lands at the incident's second |
| Health.HealthTracker.AtomicWrite | crates/coral_node/src/health.rs:395-410 | the file states it passes through, recorded one by one, are a torn temporary, a whole one, and the rename |
| Health.OneSlotIffOneSecond | crates/coral_node/src/health.rs:380-384 | two incidents share an archive file exactly if they fall into one whole second |
| Health.TransitionIsAtomic | crates/coral_node/src/health.rs:311-322 | every crash point of a failure reopens to the state before or after, with the archive as it was |
| Health.RecoveryIsAtomic | crates/coral_node/src/health.rs:335-348 | every crash point of a recovery reopens unhealthy, or healthy with a byte copy of the incident in the archive |
| Health.RecoveredIsArchived | crates/coral_node/src/health.rs:335-348 | over every run with crashes, nothing recovers without having been archived |
| Health.ArchiveHoldsTheLast | crates/coral_node/src/health.rs:372-391 | each archive slot holds the last incident moved to it |
| Health.ArchiveIsCompleteIffStampsDiffer | crates/coral_node/src/health.rs:380-384 | over every run with crashes the archive holds every incident ever moved to it exactly when no two different ones share a second |
| Health.RecoveredIncidentsAreKept | crates/coral_node/src/health.rs:324-348 | and then it holds every incident that was live at a recovery |
| Health.SameSecondLosesAnIncident | crates/coral_node/src/health.rs:380-384 | two incidents within one second: the second recovery overwrites the first's archive file |
| CycleLoop.RecordCycleFailure | crates/coral_node/src/agent.rs:306-377 | a batch of K tool failures from u used gives an incident exactly when u + K exceeds the maximum; the trail grows by K in order, each entry at its own clock reading, and stays numbered from one; the incident tells kind, details and last error |
| CycleLoop.RecordBatch | crates/coral_node/src/agent.rs:333-352 | failures past the end of the budget still join the trail and stop spending slots |
| CycleLoop.Account | crates/coral_node/src/agent.rs:248-270 | accounting a step's failure finds an incident exactly when the cycle's failures exceed an allowance |
| CycleLoop.Agent.OneTurn | crates/coral_node/src/agent.rs:205-286 | one round either ends the cycle in the way its turn calls for, with an incident that says what failed in that turn, or leaves it running within budget with a trail of everything that went wrong |
| CycleLoop.Agent.Turns | crates/coral_node/src/agent.rs:200-288 | the inner loop ends within 50,000 decide calls, in exactly one way; an incident's trail is every error of the cycle in order with its clock reading, and its details and last error are those of the last turn |
| CycleLoop.DecisionFails | crates/coral_node/src/agent.rs:210-244 | a failed decision joins the trail, and the incident carries its error in details, last error and trail |
| CycleLoop.TrailCounts | crates/coral_node/src/agent.rs:306-377 | the trail has one entry per failure, and one for a decision that failed |
| CycleLoop.Agent.Cycle | crates/coral_node/src/agent.rs:193-288 | a cycle ends as the world made it: idling recovers the health record by way of the archive and sets the wait, a spent budget or failed decision makes it unhealthy with the incident, the fuse and a storage fault leave record and files as they were |
| CycleLoop.Agent.Run | crates/coral_node/src/agent.rs:148-293 | at most the cap of cycles, each of at most 50,000 decide calls and each ending as the world made it, from where the one before left health record, files and wait; a fault ends the run and is returned, otherwise the agent retires |
| CycleLoop.RunIsItsEvents | crates/coral_node/src/agent.rs:148-293 | the health files after a run are those of its cycles' failures and recoveries, in order |
| CycleLoop.RunArchivesWhatRecovers | crates/coral_node/src/agent.rs:193-288 | over every run of the agent no incident recovers unarchived, and the archive keeps every incident exactly if no two fall into one second |
| CycleLoop.EndIsUnique | crates/coral_node/src/agent.rs:200-288 | a cycle has one length and one end |
| CycleLoop.QuietEndsAreWithinBudget | crates/coral_node/src/agent.rs:230-288 | a cycle that idles or hits the fuse kept both kinds of failure within their allowance |
| Inbox.TriggerQueue.Send | crates/coral_node/src/trigger_queue.rs:89-96 | a trigger joins the channel; conservation holds |
| Inbox.TriggerQueue.WaitNonempty | crates/coral_node/src/trigger_queue.rs:104-116 | ready exactly when something has arrived; nothing is consumed or reordered |
| Inbox.TriggerQueue.DrainOrdered | crates/coral_node/src/trigger_queue.rs:128-144 | whatever arrives meanwhile, no trigger of the drain stands behind one of a less urgent class, the queue is emptied, and every class's arrival order is conserved |
| Inbox.TriggerQueue.TakeAll | crates/coral_node/src/trigger_queue.rs:129-139 | the receive loop takes buffer and channel in order, with arrivals in between |
| Inbox.DrainConserves | crates/coral_node/src/trigger_queue.rs:128-144 | class by class, all drains and what is still inside are the arrivals in order; nothing is lost or duplicated |
| Inbox.ArrivalConserves | crates/coral_node/src/trigger_queue.rs:89-96 | an arrival keeps that |
| Inbox.SortedDrain | crates/coral_node/src/trigger_queue.rs:140-143 | sorting puts urgent classes first and keeps arrival order inside each |
| Inbox.RanksAreClasses | crates/coral_node/src/trigger_queue.rs:151-158 | the ranks put operators before the outside, that before children, and timers last, and rank the two signals of a child alike |
| ToolRows.McpSpecsFromRows | crates/coral_worker/src/tool_provider.rs:143-173 | fails exactly on a row that cannot be read, with the first such row's first unreadable column; otherwise every row's def id is in a spec with that row's command, arguments and environment, and every spec holds such rows only |
| ToolRows.RowIsReadRight | crates/coral_worker/src/tool_provider.rs:151-217 | a row is read as its command, the strings of its argument array in order, and its environment sorted by name |
| ToolRows.SpecsRunTheirRows | crates/coral_worker/src/tool_provider.rs:143-173 | the grouping keeps each row with the server it asks for |
| ToolRows.FirstOccurrencesInOrder | crates/coral_worker/src/tool_provider.rs:160-171 | specs come in the order their servers first occur |
| ToolRows.DefIdsInRowOrder | crates/coral_worker/src/tool_provider.rs:160-171 | a spec's def ids are those of its rows in row order |
| ToolRows.KeysInRowOrder | crates/coral_worker/src/tool_provider.rs:144-160 | servers are met in row order |
| ToolRows.GroupParsed | crates/coral_worker/src/tool_provider.rs:144-173 | the loop with its index computes the grouping |
| ToolRows.GroupingIsAPartition | crates/coral_worker/src/tool_provider.rs:137-173 | specs have pairwise distinct servers, each row's def id sits in its server's spec and in no other |
| ToolRows.EnvOrderIsIrrelevant | crates/coral_worker/src/tool_provider.rs:200-217 | two environments are one exactly when they hold the same pairs, in whatever order |
| ToolDispatch.BuildRegistry | crates/coral_worker/src/tool_provider.rs:54-112 | fails exactly on a bad row, with the first one, or an unreachable server, with the first one; otherwise every name has its first server's defs as owners, echo as fallback |
| ToolDispatch.RegisterAll | crates/coral_worker/src/tool_provider.rs:66-105 | the same, given the specs |
| ToolDispatch.AddServers | crates/coral_worker/src/tool_provider.rs:68-95 | registering the specs in order keeps provider and owners those of the first server |
| ToolDispatch.AddServer | crates/coral_worker/src/tool_provider.rs:75-94 | one server adds exactly the names not yet taken, with its defs as owners |
| ToolDispatch.AddEcho | crates/coral_worker/src/tool_provider.rs:97-105 | echo is added only while its name is free |
| ToolDispatch.AllowedIffARowServes | crates/coral_node/src/tools.rs:69-77 | a call is allowed exactly when a granted def is that of a row whose server first registered the name, or of an echo row if none did |
| ToolDispatch.ToolRegistry.IsCallAllowed | crates/coral_node/src/tools.rs:73-77 | exactly when some owner of the name is granted |
| ToolDispatch.ToolRegistry.RecordOwner | crates/coral_node/src/tools.rs:62-67 | the owner joins the name's set, no other name changes |
| ToolDispatch.ToolRegistry.Register | crates/coral_node/src/tools.rs:82-89 | refused exactly when the name is taken |
| ToolDispatch.ToolRegistry.RegisterSkippingExisting | crates/coral_node/src/mcp/mod.rs:250-270 | first registration wins, also within one server's own list |
| ToolDispatch.DedupKeepsFirst | crates/coral_worker/src/tool_provider.rs:137-173 | merging repeated servers does not change which comes first |
| ToolDispatch.FirstServerIsFirst | crates/coral_worker/src/tool_provider.rs:68-95 | the provider of a name advertises it, and no server before it does |

## Left out

- SQL, transactions and migrations; tables are maps and sets with the documented upsert and idempotent insert.
- The Temporal SDK, worker registration and process-wide singletons; workflow.rs contributes only the snapshot fields.
- The observation texts of steps that succeed, a failed call's arguments in its report, and how Rust's `{:?}` spells
  unprintable characters.
- Model clients, prompt rendering, MCP subprocesses and tool bodies.
- SHA-256, git blob hashing, timestamp formatting, duration grammar, YAML and serde parsing. UTF-8 encoding is taken as
  injective and order-preserving.
- Claims, conflicts, retirement records, decision logs and `mandate.md`; file search and plain reads.
- `locate_agent_tool_reference`: a heuristic for error columns, together with the location field of its error.
- `register_child_in_structural_db_impl`: documented as not idempotent.
- The tool rows and the policy metadata that applying a document also writes.
- The conflict record of a reconcile, whose check runs after the evidence is written.
- Two attempts of one activity running at once, as after a timeout of an attempt that is still alive.
- Storage and file-system errors other than crashes, except the faults that end a cycle or a run of cycles.
- Object keys that repeat within one JSON object, which the parsed value cannot hold.
- Windows path prefixes and paths that are not UTF-8.
- GraphRun.MarginIsExact: counters below their ceiling and no spawn while a sweep samples, as `Sound` says; both limits are shown to be needed.
- Inbox.TriggerQueue.WaitNonempty: waiting is an answer of `false` instead of a suspended task.
