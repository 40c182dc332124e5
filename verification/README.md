# sup-xml verification

A Dafny 4.11 model of the stateful parts of sup-xml: the libxml2 compatibility
layer's dictionaries, arenas and allocator registries, the benchmark suite's
schema workers, the command-line tool's algorithms, and two benchmark drivers.
`dafny verify dfyconfig.toml` checks everything.

Each imperative part comes twice: as a method or class that updates its state the
way the Rust code does, and as a function or step relation that its `ensures`
equates it with. Results about whole runs are lemmas over the latter.

## What is modelled

**Dictionaries and arenas** (`CompatState`, `CompatCounts`, `CompatSteps`,
`Lifetime`, `Grafts`, `Chains`, `Safety`, `Lasting`, `Discipline`, `DoubleHop`,
`Interning`, `Sharing`, `History`, `QNames`, `DictAbi`). `History` reads every part of a
reachable state off the calls made so far, without the step function.
Refcounted, chained intern dictionaries; one shared dictionary, two pending slots and
a keep-alive list per thread; documents holding an arena and two dictionary
references. A run interleaves the calls of any number of threads. An address may be
handed out again once its dictionary is freed. The flag `fault` is raised by any touch
of a dictionary or arena that is not live.

**Allocator registries** (`Alloc`, `AllocContents`, `AllocAbi`). A byte heap shared by libc, the Rust
allocator and memory neither registry knows, with address reuse and failing
allocations; both registries; `xmlMalloc`, `xmlRealloc`, `xmlFree` and the three
registered allocators.

**Schema workers** (`Workers`, `WorkerAnswers`, `Backend`, `Tally`, `TallyCounts`). A front end and its worker threads
as asynchronous steps: abandoned workers keep running, any thread may die, a wait may
be given up at any moment. `Engine` stands for compiling and validating.

**Structural diff** (`TreeDiff`, `DiffPaths`, `DiffSteps`, `DiffCounts`, `DiffOrder`,
`DiffRun`), **capped reader**
(`CapReader`), **JSON strings** (`Json`), **in-place replacement** (`InPlace`), from
the command-line tool.

**Streaming runners** (`Stream`, `StreamExtract`, `StreamSums`) and **fixture encoders**
(`Encoders`), from the benchmarks.

## What the proofs found

- The documentation promises that a name held by a parent dictionary is shared with
  its children. For a name the parent knew first that holds for the child's whole life
  (`Sharing.ParentPointerLasts`). But `intern` searches ancestors first and `lookup` the
  own table first, so after a child and then its parent intern the same name the child
  interns one pointer and looks up another. `Interning.ChildPointerStableExactly` and
  `Interning.FindsAgreeExactly` give the exact condition, `Interning.ChildPointerMoves`
  a whole run. The model follows the code.
- The cross-thread move pins the arena of the document a node is unlinked from. A node
  that had itself been moved there lives in a third arena, which the second move does
  not pin, and neither does an API graft. Memory stays live in every continuation that
  keeps a document and its slot if and only if it is the document's own arena or pinned
  on a dictionary of its chains (`Lasting.StaysLiveExactly`); so a move protects a node
  exactly when its memory is the stashed arena or was covered before
  (`Lasting.MovedNodeDanglesExactly`), and a graft exactly when it is the source
  document's (`Lasting.GraftProtectsExactly`, `DoubleHop.GraftLeavesGap`). `DoubleHop.DoubleHopDangles` is a full
  run of two complete moves that ends in a dangling node.
- A failed `realloc` of a registered block to a positive size leaves the block live but
  unregistered, for good (`Alloc.RunInv`, `Alloc.RegistryExact`, `Alloc.ReallocLeaks`).
- `xmlRealloc` of an arena string to size 0 writes its terminator outside the new
  block, and only then (`Alloc.ReallocInBoundsExactly`, `Alloc.ReallocToNothing`).
- The labels of an added line are counted over the left siblings, so its path can lead
  astray in the right tree: it does not exactly when both sides have equally many
  elements of each step's name before it (`DiffPaths.AddedPathExactly`;
  `AddedLabelMisleads` and `AddedPathMisleads` are two ways it fails).
- Of the two streaming runners only the counter checks the root's name
  (`StreamExtract.RunnersAgreeExactly`, `RunnersDiffer`). The extractor stops reading an `AC` at the first
  end tag inside it and passes over CDATA: it captures the whole text if and only if no
  text is lost that way (`StreamExtract.CapturedExactly`, `NestedCutShort`), and of an
  entry's first `AC` under the condition of `StreamExtract.EntryTextExactly`; after an
  empty first `AC` it takes a later one's text (`LaterAcTaken`).
- `xmlDictQLookup` joins prefix and name with a colon and nothing else, so a prefix that
  holds a colon can name what another pair names (`QNames.QNamesCollide`); without one, both
  parts tell names apart (`QNames.QNamesApart`).
- With `--max-size 0` the streamed check still stops at 2^64 - 1 bytes
  (`CapReader.VerdictsAgreeExactly`, `UncappedStops`); the in-place replacement keeps the file mode only
  when the metadata could be read (`InPlace.SuccessKeepsModeExactly`,
  `ModeLost`).

## Model

| member | source | states |
|---|---|---|
| CompatCounts.ReleaseKeeps | crates/tree/src/dict.rs:228-249 | Giving up a reference in hand, cascading up the chain as dictionaries reach zero, leaves every remaining count equal to the stakes recorded for it, every parent live, nothing touched after it was freed |
| CompatCounts.RetainKeeps | crates/tree/src/dict.rs:204-210 | Pinning an arena clone keeps all counts exact and never pins one arena twice on a dictionary |
| CompatCounts.InternKeeps | crates/tree/src/dict.rs:258-283 | Interning keeps tables injective, owned buffers equal to the table's range and disjoint between dictionaries |
| CompatSteps.StepSound | crates/compat/src/dict.rs:184-365 | Every call by any thread preserves exact reference and arena counts, liveness of parents and stakes, and absence of use after free |
| Lifetime.RunSound | crates/compat/src/dict.rs:195-241 | The same in every state of every interleaving |
| Lifetime.LiveIffHeld | crates/compat/src/dict.rs:139-192 | In every reachable state a dictionary is live if and only if some handle, document, thread or live sub-dictionary holds it, its count being exactly their number; an arena is live if and only if some document, keep-alive list, pending slot or dictionary holds it |
| History.HandlesExactly | crates/compat/src/dict.rs:195-241 | Over any run the references callers hold of a dictionary are those created or referenced less those freed, and while any are left it is live with a count no smaller |
| History.ReferencesKeepLive | crates/compat/src/dict.rs:224-241 | From any creation or reference on, a dictionary freed no more often than referenced since is live |
| History.DocLiveExactly | crates/tree/src/dom.rs:2989-3037 | A document is live if and only if a call opened it and none has freed it since |
| History.DocMeans | crates/compat/src/parse.rs:367-375 | An open document holds the arena of its opening, the dictionary it was given or else its thread's, and in its slot what was last written there |
| History.SharedMeans | crates/compat/src/dict.rs:120-137 | A thread's dictionary is the one made by the first call that needed one since it started |
| History.OneDictPerThread | crates/compat/src/parse.rs:207-213 | Documents one thread opens without naming a dictionary share one, whatever happens in between |
| History.KeptExactly | crates/compat/src/dict.rs:139-192 | A thread's keep-alive list holds exactly the arenas of the documents it opened since it started |
| History.NodesExactly | crates/compat/src/mutate.rs:86-151 | A document reaches exactly the nodes created in it, linked or grafted into it and not taken out since |
| History.HomeExactly | crates/compat/src/dict.rs:139-192 | A node lies in the arena of the document it was created in, for good |
| History.ParentMeans | crates/compat/src/dict.rs:216-220 | A live dictionary has, for good, the parent named by the call that made it |
| History.StoresExactly | crates/tree/src/dict.rs:258-283 | A dictionary stores a name at a pointer if and only if a call in its lifetime interned that name in it, unknown to its chain, at that address |
| History.PinsExactly | crates/compat/src/dict.rs:246-283 | A dictionary pins exactly the arenas that a completed move or an API graft brought to it in its lifetime |
| Lifetime.GraftSlotMeans | crates/compat/src/dict.rs:94-113 | The graft slot of a thread holds an arena if and only if the last unlink on that thread stashed it and no lookup of the thread has consumed it |
| Lifetime.ReinternSlotMeans | crates/compat/src/dict.rs:76-92 | The re-intern slot holds a dictionary and name if and only if the last owning `xmlDictOwns` on that thread named them and no lookup came since |
| Grafts.StepPins | crates/tree/src/dict.rs:199-210 | No call removes a name, a pin or the chain position of a dictionary that survives it |
| Safety.PinIffMove | crates/compat/src/dict.rs:246-283 | A lookup pins an arena if and only if it completes an unlink, owning `xmlDictOwns`, lookup sequence on that thread naming this pointer and another dictionary; the pinned arena is the last one stashed, and no other pin changes |
| Safety.StashPinnedOnce | crates/compat/src/dict.rs:246-283 | No stash is pinned twice |
| Safety.PinLasts | crates/tree/src/dict.rs:199-210 | A pin lasts as long as a document keeps the dictionary on one of its chains |
| Chains.CoveredKept | crates/tree/src/dict.rs:160-179 | What is a document's own arena or pinned on a chain of its dictionaries goes on being so while it keeps its slots, a child keeping its ancestors live |
| Lasting.StaysLiveExactly | crates/compat/src/dict.rs:139-192 | In a sound state, memory is live in every continuation that keeps a document and its slot if and only if it is the document's arena or pinned on a dictionary of the chains of its dictionary or slot |
| Lasting.DanglesExactly | crates/compat/src/dict.rs:139-192 | A node a document reaches dangles in some such continuation if and only if its memory is not so covered |
| Lasting.ReachableDanglesExactly | crates/compat/src/dict.rs:139-192 | The same in every state of every run |
| Lasting.MoveProtectsExactly | crates/compat/src/dict.rs:246-283 | After a completed move memory is live in every such continuation if and only if it was covered before, or is the stashed arena and the document has the dictionary looked up in on a chain |
| Lasting.MovedNodeDanglesExactly | crates/compat/src/dict.rs:246-283 | So a node can be left dangling after the move if and only if its memory is neither |
| Lasting.GraftProtectsExactly | crates/compat/src/mutate.rs:119-135 | After an API graft memory is live in every such continuation of the destination if and only if it was covered before, or is the source document's arena and the two dictionaries differ |
| Safety.MoveBacked | crates/compat/src/dict.rs:94-113 | From the unlink on, through the lookup and for as long as the document keeps that dictionary on a chain, the moved memory has a holder and is live |
| Safety.KeptUntilExit | crates/compat/src/dict.rs:139-192 | A thread's keep-alive list holds every arena it opened until it exits |
| Safety.GuardedStep | crates/compat/src/dict.rs:139-192 | A call that does not give up the last holder of a reachable node's arena keeps every node of every live document held |
| Safety.AllowedRunsSafe | crates/compat/src/dict.rs:139-192 | Runs of such calls never let a live document reach a freed arena |
| Discipline.DisciplinedRunsSafe | crates/compat/src/mutate.rs:86-135 | In every run where each node was created where it stands, or was brought there with its memory already covered, within a cross-thread move of that memory, while its opening thread has not exited, or through the API graft, every node of every live document lies in a live arena |
| DoubleHop.OneMoveDisciplined | crates/compat/src/dict.rs:94-113 | A concrete run of one complete cross-thread move keeps to that rule, so each of its states is safe |
| DoubleHop.GraftLeavesGap | crates/compat/src/mutate.rs:119-135 | In a reachable state an API graft of a node that had itself been moved leaves its memory to be freed in some continuation |
| DoubleHop.DoubleHopDangles | crates/compat/src/mutate.rs:1749-1768 | A valid run holding two complete moves of one node ends in a state where a live document reaches it in a freed arena |
| Interning.RootIntern | crates/tree/src/dict.rs:258-283 | On a root dictionary a known name changes nothing and gets its pointer; a new one is stored and the size grows by exactly one |
| Interning.RootCanonical | crates/compat/src/dict.rs:10-18 | Over any history of a live root dictionary, equal bytes keep one pointer and different bytes have different ones, for interning and looking up alike |
| Interning.DictGrows | crates/tree/src/dict.rs:258-283 | Over any history a live dictionary keeps every name at its pointer |
| Interning.ChainFindOwned | crates/tree/src/dict.rs:184-196 | Whatever a chain answers is stored under exactly these bytes by a dictionary on it that owns the pointer |
| Interning.FindsAgreeExactly | crates/tree/src/dict.rs:258-310 | Interning and looking up agree if and only if the name is not known both in the own table and above it |
| Sharing.ChainAnswerLasts | crates/tree/src/dict.rs:184-196 | On any chain and over any history, what a chain answers for a name never changes while the dictionary lives |
| Sharing.ParentPointerLasts | crates/compat/src/dict.rs:200-220 | A name the parent's chain knew before the child did: for the child's whole life interning it, looking it up and asking the parent give the parent's pointer |
| Sharing.ParentPointerShared | crates/compat/src/dict.rs:200-220 | So interning such a name in the child gives that pointer and never stores it again |
| Sharing.HandedOutOwned | crates/compat/src/dict.rs:345-365 | A pointer handed out by interning in a dictionary is owned by it as long as it lives |
| Sharing.AnswerOwned | crates/compat/src/dict.rs:345-365 | Whatever looking up answers is owned |
| Sharing.OwnsExactly | crates/compat/src/dict.rs:345-365 | In every reachable state a dictionary owns a pointer if and only if a dictionary of its chain handed it out in a call since which that one has lived |
| Interning.ChildPointerStableExactly | crates/tree/src/dict.rs:258-283 | A name first interned in the child keeps the pointer it interns to if and only if no ancestor has come to know it; looking it up always gives the first pointer |
| Interning.ChildPointerMoves | crates/tree/src/dict.rs:258-310 | A valid run from the start in which a live child's interned pointer for one name changes between two states, while looking it up gives the first |
| QNames.NamesApart | crates/compat/src/dict.rs:10-18 | On a live root two interning calls, however far apart, answer one pointer if and only if they intern one name |
| QNames.QLookupInterns | crates/compat/src/dict.rs:289-313 | A qualified lookup does what interning the prefix, a colon and the name does, or the name alone when the prefix is empty |
| QNames.QNamesApart | crates/compat/src/dict.rs:289-313 | On a live root two qualified lookups whose prefixes hold no colon (nor, without a prefix, the name) answer one pointer if and only if both parts agree |
| QNames.QNamesCollide | crates/compat/src/dict.rs:308-312 | With a colon in a prefix two different pairs are one name |
| DictAbi.Process.ReleaseReference | crates/tree/src/dict.rs:228-249 | In place: frees exactly at zero, lets the pins go, cascades to the parent; reports whether it freed |
| DictAbi.Process.RetainArena | crates/tree/src/dict.rs:204-210 | In place: pins the clone, or drops it if already pinned |
| DictAbi.Process.AncestorLookup | crates/tree/src/dict.rs:184-196 | The loop up the parent chain finds the nearest ancestor's pointer |
| DictAbi.Process.InternBytes | crates/tree/src/dict.rs:258-283 | In place: ancestors first, then the own table, then a new buffer |
| DictAbi.Process.LookupBytes | crates/tree/src/dict.rs:300-310 | Own table first, then the ancestors |
| DictAbi.Process.OwnsPointer | crates/tree/src/dict.rs:315-334 | The loop up the chain answers whether any dictionary on it owns the pointer |
| DictAbi.Process.SharedDict | crates/compat/src/dict.rs:120-137 | In place: the thread's dictionary, created at count 1 on first use |
| DictAbi.Process.NewDocArena | crates/compat/src/dict.rs:184-192 | In place: a new arena with one handle for the caller and one on the keep-alive list |
| DictAbi.Process.StashGraftSource | crates/compat/src/dict.rs:111-113 | In place: replaces the pending stash and drops the previous one |
| DictAbi.Process.XmlDictCreate | crates/compat/src/dict.rs:196-198 | In place: a new dictionary whose one reference is the caller's |
| DictAbi.Process.XmlDictCreateSub | crates/compat/src/dict.rs:216-220 | In place: a child holding one reference on its parent |
| DictAbi.Process.XmlDictReference | crates/compat/src/dict.rs:224-231 | In place: one more handle and a count one higher, -1 on NULL; `History.HandlesExactly` and `History.ReferencesKeepLive` say what that is worth over a run |
| DictAbi.Process.XmlDictFree | crates/compat/src/dict.rs:236-241 | In place: gives up one handle, NULL ignored, counts exact afterwards |
| DictAbi.Process.XmlDictLookup | crates/compat/src/dict.rs:246-283 | In place: consumes both pending slots, pins or drops the stash, interns |
| DictAbi.Process.XmlDictQLookup | crates/compat/src/dict.rs:289-313 | In place: for every byte string that is the prefix, a colon and the name, or the name alone when the prefix is empty, does and answers what interning that does; NULL and no change for a NULL dictionary or name |
| DictAbi.Process.XmlDictExists | crates/compat/src/dict.rs:318-335 | Answers what looking up finds and stores nothing |
| DictAbi.Process.XmlDictOwns | crates/compat/src/dict.rs:349-365 | In place: answers 1 if the chain owns the pointer and 0 otherwise or on NULL, and arms the re-intern slot exactly when it answers 1 |
| DictAbi.Process.ThreadDrop | crates/compat/src/dict.rs:50-68 | In place: an exiting thread gives up its arenas, its stash and its dictionary reference |
| Alloc.StepInv | crates/compat/src/alloc.rs:52-72 | No call releases through the wrong allocator or with the wrong size or writes past a block; both registries stay exact; the only blocks the main one loses are those whose realloc to a positive size failed |
| Alloc.RunInv | crates/compat/src/alloc.rs:183-269 | The same over every run, with the set of lost blocks equal to the set of failed reallocs, so none of them is ever released |
| Alloc.RegistryExact | crates/compat/src/alloc.rs:15-24 | After any run the main registry is the set of live libc blocks if and only if no realloc of a registered block to a positive size failed |
| Alloc.ReallocLeaks | crates/compat/src/alloc.rs:237-241 | A concrete run after which a live libc block is unregistered |
| Alloc.FreeExactly | crates/compat/src/parse.rs:703-730 | `xmlFree` releases exactly when given the base of a live block a registry knows, and otherwise changes nothing |
| Alloc.FreeIgnores | crates/compat/src/alloc.rs:10-13 | Any pointer into an arena, and any pointer past a block's start, may be freed without effect |
| Alloc.AllocThenFree | crates/compat/src/alloc.rs:83-135 | Freeing what any allocating call returned gives back the blocks and registries as they were |
| Alloc.StepFrame | crates/compat/src/alloc.rs:199-269 | Every call leaves every block, bytes included, alone but the one it releases |
| Alloc.ReallocBridges | crates/compat/src/alloc.rs:242-268 | Reallocating an arena or binary string gives a registered block of the requested size holding the string cut to size minus one bytes, NUL-terminated, and leaves the source string |
| Alloc.ReallocInBoundsExactly | crates/compat/src/alloc.rs:262-267 | On that path the terminator is in bounds if and only if the size is positive |
| Alloc.ReallocToNothing | crates/compat/src/alloc.rs:262-267 | A concrete arena string whose realloc to size 0 is out of bounds |
| Alloc.ReallocMovesStr | crates/compat/src/alloc.rs:237-241 | A registered string survives any realloc with room for it |
| Alloc.StrSurvives | crates/compat/src/alloc.rs:230-269 | A string from any origin reads back the same after any run and any chain of reallocs with room for it, wherever it moved |
| AllocAbi.Allocator.AllocRegisteredCstring | crates/compat/src/alloc.rs:83-99 | In place: a registered libc block in which C reads the source's bytes up to the first NUL, or NULL and no change |
| AllocAbi.Allocator.AllocRegisteredBuffer | crates/compat/src/alloc.rs:110-135 | In place: a Rust block that reads back all the bytes and a NUL, registered with its exact size |
| AllocAbi.Allocator.AllocRegisteredZeroed | crates/compat/src/alloc.rs:207-217 | In place: a registered block whose every byte is 0, or NULL and no change |
| AllocAbi.Allocator.XmlMalloc | crates/compat/src/alloc.rs:219-228 | In place: a registered block, or NULL and no change |
| AllocAbi.Allocator.XmlFreePtr | crates/compat/src/parse.rs:703-730 | In place: binary registry first, then the main one, otherwise nothing; each release meets its allocator's demands |
| AllocAbi.Allocator.XmlReallocPtr | crates/compat/src/alloc.rs:230-269 | In place: all four branches by the pointer's origin, the length found by scanning for the NUL |
| AllocContents.CstringHolds | crates/compat/src/alloc.rs:83-99 | After the call C reads from the new block what it would have read of the source; the block is new, registered and of just that size |
| AllocContents.BufferHolds | crates/compat/src/alloc.rs:110-135 | The new block reads back all the bytes, NULs included, and one NUL more |
| AllocContents.ZeroedHolds | crates/compat/src/alloc.rs:207-217 | Every byte of the new block is 0 |
| AllocContents.MallocGives | crates/compat/src/alloc.rs:219-236 | `xmlMalloc`, and `xmlRealloc` of NULL alike, give a new registered block of the size asked for, or change nothing |
| AllocContents.ReallocKeepsBytes | crates/compat/src/alloc.rs:237-241 | Reallocating a registered block keeps as many bytes as both sizes have room for, registers the new block and lets go of the old |
| Workers.StepInv | crates/bench/benches/xsts_compliance.rs:197-273 | Every step of front end and workers, deaths and abandonments included, keeps the protocol's invariant |
| Workers.NoStaleReplies | crates/bench/benches/xsts_compliance.rs:241-273 | In every run the reply read is the one to the request just sent and the right answer to it, and between calls the current worker's channels are empty |
| Workers.RefinesSequential | crates/bench/benches/xsts_compliance.rs:169-179 | In every run the outcomes are a sequential validator's up to timeouts of requests really sent; `schema_ready` holds exactly when that validator has a schema, and then the current worker caches it |
| Workers.NoDefensiveArm | crates/bench/benches/xsts_compliance.rs:218-219 | No worker, orphaned or not, ever executes a validation without a schema |
| Workers.FreedOnce | crates/bench/benches/xsts_compliance.rs:307-362 | No schema is freed twice or while cached, and a worker that left its loop has freed every schema it compiled |
| Workers.SendsSucceed | crates/bench/benches/xsts_compliance.rs:243-246 | If threads die only while at work, no send fails: the timeouts reported number exactly the waits given up |
| Workers.UntimedRun | crates/bench/benches/xsts_compliance.rs:238-273 | Every run whose log holds no timeout, whatever died, has exactly the sequential validator's outcomes |
| Workers.UndisturbedRun | crates/bench/benches/xsts_compliance.rs:238-273 | If the front end never gives up and threads die only at work, there is no timeout and the outcomes are the sequential validator's |
| WorkerAnswers.AnswersExplained | crates/bench/benches/xsts_compliance.rs:238-273 | In every run each compile answer but a timeout says whether that file compiles, and each validation answer is the verdict of the schema compiled last, or no-schema if and only if none is in force |
| WorkerAnswers.RepliesExplained | crates/bench/benches/xsts_compliance.rs:307-347 | A worker accepts a compilation if and only if the file compiles, a validation if and only if the schema it compiled last accepts the file |
| Backend.SchemaBackend.CompileSchema | crates/bench/benches/xsts_compliance.rs:241-255 | In place: whatever the threads do meanwhile, answers the compile verdict or a timeout, never no-schema, and sets `schema_ready` to match |
| Backend.SchemaBackend.ValidateInstance | crates/bench/benches/xsts_compliance.rs:257-272 | In place: no-schema exactly when not ready, else the sequential verdict or a timeout, which alone clears `schema_ready` |
| Backend.WorkerLoop | crates/bench/benches/xsts_compliance.rs:307-363 | The loop's replies are the sequential verdicts until a send fails, and each compiled schema is freed once, in order |
| Tally.TotalConserves | crates/bench/benches/xsts_compliance.rs:576-700 | After any cases, for every backend the outcome counters add up to the cases seen, and the recorded timeouts number exactly the timeouts counted |
| Tally.TotalJoins | crates/bench/benches/xsts_compliance.rs:555-563 | Adding the totals of two test sets equals running them together |
| TallyCounts.StatsExactly | crates/bench/benches/xsts_compliance.rs:589-697 | Every counter of every backend is the number of cases of its kind with a document that it answered so: as expected, against it, no schema, timeout |
| TallyCounts.AgreementsExactly | crates/bench/benches/xsts_compliance.rs:642-697 | The agreement counters are the numbers of schema cases with all answers alike and of instance cases with one verdict from all |
| TallyCounts.RecordsExactly | crates/bench/benches/xsts_compliance.rs:624-628 | A timeout record occurs once for each case of its kind and document that its backend timed out on |
| TallyCounts.RecordsInOrder | crates/bench/benches/xsts_compliance.rs:589-690 | The records come in the order of the cases and, within a case, of the backends |
| Tally.AllAgree | crates/bench/benches/xsts_compliance.rs:702-704 | Comparing neighbours decides whether all outcomes are equal |
| Tally.ContribStats.Add | crates/bench/benches/xsts_compliance.rs:508-563 | In place: the sum of both sets of counters, backend by backend |
| Tally.ContribStats.RunCase | crates/bench/benches/xsts_compliance.rs:589-697 | In place: one case adds exactly its contribution and its timeout records; what those come to is `TallyCounts` |
| Tally.RunTestSet | crates/bench/benches/xsts_compliance.rs:576-700 | The nested loops end at the totals and records that `TallyCounts` counts out case by case, conserved |
| TreeDiff.SortOrdered | crates/cli/src/main.rs:1642-1645 | Attributes are compared in ascending name order |
| TreeDiff.SortStable | crates/cli/src/main.rs:1642-1645 | Attributes of one name keep their order |
| TreeDiff.AttrCount | crates/cli/src/main.rs:1641-1659 | One line for each name on which two attribute lists disagree |
| TreeDiff.AttrExact | crates/cli/src/main.rs:1641-1659 | No attribute line if and only if both sides have the same attributes in any order |
| TreeDiff.DiffExact | crates/cli/src/main.rs:1619-1714 | The diff is empty if and only if the trees are equal up to attribute order, the catch-all kinds by kind only |
| TreeDiff.EmptyDiffEquivalence | crates/cli/src/main.rs:1619-1714 | Having an empty diff is an equivalence relation |
| TreeDiff.DiffCountSymmetric | crates/cli/src/main.rs:1619-1714 | Swapping the files never changes the number of lines |
| DiffPaths.LabelsDistinct | crates/cli/src/main.rs:1716-1737 | No two element siblings get the same label |
| DiffPaths.LineExplained | crates/cli/src/main.rs:1628-1712 | Every line is true of the nodes at a position reached in both trees, and its path is the labels on the way |
| DiffPaths.DiffListsExactly | crates/cli/src/main.rs:1619-1714 | A line is in the diff if and only if it states a difference at a position both trees walk to, under the labels on the way |
| DiffCounts.DiffCountsExactly | crates/cli/src/main.rs:1619-1714 | A line occurs in the diff exactly as often as there are positions at which the trees differ in what it says |
| DiffOrder.DiffListed | crates/cli/src/main.rs:1641-1688 | The lines come in document order of what they are about, those of one element changed and removed attributes first, by name, then added ones by name |
| DiffOrder.LeqLexicographic | crates/cli/src/main.rs:1642-1645 | Names are ordered by their first differing character, a prefix first |
| DiffSteps.LabelSelectsExactly | crates/cli/src/main.rs:1716-1737 | Read as an XPath step, an element's label selects it alone among its siblings, any other node's exactly the nodes of its class and target |
| DiffSteps.StepsSelect | crates/cli/src/main.rs:1619-1737 | Every reported difference but an addition: each step of its path selects, in the left tree, the next node down to the one it is about |
| DiffSteps.AddedStepsSelect | crates/cli/src/main.rs:1666-1737 | An addition: all steps but the last select the way on the left; the last names the added element, or selects the added node on the right if it is none |
| DiffSteps.KindChangesTell | crates/cli/src/main.rs:1626-1631 | A reported change of kind names the kinds of the two nodes at its position, which differ; any other line but a removal or an addition compares nodes of one kind |
| DiffPaths.PathResolves | crates/cli/src/main.rs:1663-1688 | The labels along a position on the left lead back to it, or to its parent if the node is no element |
| DiffPaths.LinesResolve | crates/cli/src/main.rs:1619-1714 | Every reported difference but an addition: its path, read in the left tree, finds what it is about |
| DiffPaths.AddedLabelExactly | crates/cli/src/main.rs:1682-1685 | Among its siblings, an added element's last label finds it on the right if and only if both sides have as many elements of its name in the positions they share |
| DiffPaths.AddedPathExactly | crates/cli/src/main.rs:1666-1685 | An addition's whole path leads in the right tree to what was added if and only if, at every element step, both sides have as many earlier elements of its name |
| DiffPaths.AddedParentResolves | crates/cli/src/main.rs:1666-1685 | Without its last step the path leads in the left tree to the node that lacks the addition |
| DiffPaths.AddedLinesResolve | crates/cli/src/main.rs:1619-1714 | Both of these for every addition the diff reports |
| DiffPaths.AddedLabelMisleads | crates/cli/src/main.rs:1682-1685 | A concrete pair of siblings whose added label the right side does not have |
| DiffPaths.AddedPathMisleads | crates/cli/src/main.rs:1666-1685 | A concrete pair of trees with an added line whose path goes astray above its last step |
| DiffRun.StepLabel | crates/cli/src/main.rs:1716-1737 | The counter map yields the node's label: for an element the number of same-named elements before it, for the rest the step `DiffSteps.LabelSelectsExactly` reads back |
| DiffRun.DiffNode | crates/cli/src/main.rs:1619-1714 | In place: appends exactly the diff's lines and restores the path buffer |
| DiffRun.RunDiff | crates/cli/src/main.rs:1567-1613 | The check fails if and only if the documents differ beyond attribute order |
| CapReader.CappedReader.Read | crates/cli/src/main.rs:1014-1037 | In place: one read against any short or failing source, probing one byte past the cap |
| CapReader.CappedReader.Drain | crates/cli/src/main.rs:1014-1037 | Reading on ends with the whole source and its end, the cap's worth and the cap error, or the source's own error |
| CapReader.ReadsFit | crates/cli/src/main.rs:1032-1035 | No read gives more bytes than its buffer takes or the cap has left, and an empty one into a non-empty buffer means the source has ended |
| CapReader.RunDelivers | crates/cli/src/main.rs:1014-1037 | Over any reads: delivered bytes are a prefix of the source, delivered plus remaining is the cap, and only probed bytes are lost |
| CapReader.DrainYields | crates/cli/src/main.rs:996-1037 | A drain yields the whole source if it fits, otherwise exactly the cap's worth and the cap error |
| CapReader.VerdictsAgreeExactly | crates/cli/src/main.rs:651-668 | The streamed verdict equals the slurped check if and only if a cap is set or the input has at most 2^64 - 1 bytes |
| CapReader.UncappedStops | crates/cli/src/main.rs:966-973 | A concrete input, one byte past 2^64 - 1, that the streamed check rejects with the cap off |
| Json.JsonEscape | crates/cli/src/main.rs:611-625 | The loop computes the escaping |
| Json.JsonRoundTrip | crates/cli/src/main.rs:608-630 | For every string and suffix, a reader for section 7 of RFC 8259 gives back exactly that string and that suffix |
| Json.EscapeUnique | crates/cli/src/main.rs:611-625 | A character's spelling is the only one the reader takes for it of that length (two for the five with a letter or mark of their own, six for other controls, else one), with lower-case digits |
| Json.JsonPrefixFree | crates/cli/src/main.rs:627-630 | No written string is a prefix of another's |
| InPlace.TmpDiffers | crates/cli/src/main.rs:697-712 | The temporary file's name is never the target's |
| InPlace.SameDirectory | crates/cli/src/main.rs:692-712 | From wherever the call is made the temporary file lies in the target's directory |
| InPlace.TmpUnique | crates/cli/src/main.rs:703-712 | Different processes or moments never use one temporary file |
| InPlace.CrashSafe | crates/cli/src/main.rs:687-735 | Stopped after any change, the target is whole, old or, after the rename, new, and no other file is touched |
| InPlace.PlanSafe | crates/cli/src/main.rs:718-734 | It succeeds exactly when every system call it needs does; on an error the target is as it was and the temporary file is gone if it could be removed |
| InPlace.SuccessKeepsModeExactly | crates/cli/src/main.rs:720-727 | After success the mode is the original's if and only if the metadata could be read or the modes agree anyway |
| InPlace.ModeLost | crates/cli/src/main.rs:720-727 | A concrete successful call after which the mode is not the original's |
| InPlace.FileSystem.WriteInPlace | crates/cli/src/main.rs:696-735 | In place: goes through exactly those disk states |
| Stream.DepthIsPathLength | crates/bench/benches/stream.rs:63-95 | On any events, `depth` is the length of `path` |
| Stream.CountsEntries | crates/bench/benches/stream.rs:63-95 | On the events of any document, childless elements written either way, the count is the number of `Entry` children of a root named `root` |
| Stream.RunCount | crates/bench/benches/stream.rs:63-95 | The loop computes the automaton |
| StreamExtract.ExtractsEntries | crates/bench/benches/stream.rs:130-199 | The items are the root's `Entry` children, with their `id` lengths and the text captured from the first `AC` not written as an empty tag |
| StreamSums.TotalsExactly | crates/bench/benches/stream.rs:130-199 | The totals are the numbers of `Entry` children, of characters in their attributes named `id`, and of characters captured for them |
| StreamExtract.RunnersAgreeExactly | crates/bench/benches/stream.rs:63-199 | Both runners count the same if and only if the root is named `root` or has no `Entry` child |
| StreamExtract.RunnersDiffer | crates/bench/benches/stream.rs:63-199 | A concrete document on which they differ |
| StreamExtract.CapturedExactly | crates/bench/benches/stream.rs:159-186 | The text captured from an `AC` is its text content if and only if no CDATA stands before the first end tag in it and no text after |
| StreamExtract.EntryTextExactly | crates/bench/benches/stream.rs:105-186 | The text captured for an entry is that of its first `AC` in the tree if and only if there is none, or it skips nothing, or, being an empty tag, the first `AC` that is not one skips all it has |
| StreamExtract.LaterAcTaken | crates/bench/benches/stream.rs:159-186 | A concrete entry whose empty first `AC` is given a later one's text |
| StreamExtract.FlatCaptured | crates/bench/benches/stream.rs:159-186 | In particular the whole text of an `AC` without child elements or CDATA is captured |
| StreamExtract.NestedCutShort | crates/bench/benches/stream.rs:181-186 | A concrete `AC` whose captured text differs from its text content |
| StreamExtract.RunExtract | crates/bench/benches/stream.rs:130-199 | The loop computes the automaton |
| Encoders.Utf16RoundTrip | crates/bench/benches/parse.rs:64-76 | Decoding the bytes after the mark as in section 2.2 of RFC 2781 gives back the characters |
| Encoders.Utf8ToUtf16be | crates/bench/benches/parse.rs:64-76 | The loop writes the mark and then every code unit, high byte first |
| Encoders.Invert | crates/bench/benches/parse.rs:82-91 | The two inverse tables hold, for each code point, the last byte that stands for it |
| Encoders.Utf8ToCodePage | crates/bench/benches/parse.rs:80-108 | Each character becomes the last byte that stands for it, or 0x6F if none does |
| Encoders.CodePageRoundTripExactly | crates/bench/benches/parse.rs:78-108 | For any 256-entry table, decoding gives the text back if and only if the table can express every character |

## Left out

- The parsers, XPath, XSD, XSLT and canonicalization engines: separate subjects, and not the state machines modelled here.
- `xmlMemSetup` hook swapping: its documentation excludes mixing it with registry allocations.
- Real threads and clocks: a timeout is a step that may happen at any moment of a wait, and each dictionary or registry call is one atomic step. For a registry, and for a dictionary without a parent, one lock makes it so. On a chain `intern` takes and releases the ancestors' locks before its own, so calls on dictionaries of one chain are assumed not to overlap: an ancestor that learns a name in between would leave the child with a copy of its own.
- CompatSteps.Step: an unlink stashes the arena of the document the node is reached from, where the code reads the node's own `doc` field; an API graft retags only the top node, so for its descendants the code stashes the origin document's arena instead.
- Reading a C string: names come as their bytes, whether a length was passed or a NUL found.
- Reference-count overflow: counts are unbounded integers.
- Arenas are numbered, never reused, where the code compares arena addresses of live `Arc`s; a subtree is the set of its nodes, and node names and contents are not tracked through frees.
- Arena rooting for Miri, byte layouts and exported symbol tables.
- `Safety.AllowedRunsSafe`: its condition is on states; `Discipline.DisciplinedRunsSafe` is the same conclusion from the history of calls alone.
- Alignment of binary buffers: one constant on both sides, so only the size is compared.
- AllocAbi.Allocator.XmlReallocPtr: excludes only a copy to size 0, whose terminator is out of bounds (`Alloc.ReallocInBoundsExactly`); for a registered block at size 0, where C leaves the choice to the platform, NULL is taken to mean that the block was freed.
- Compiling and validating are functions of the path: files do not change during a suite run.
- The libxml2 parser contexts and documents a worker creates within one request.
- Wall-clock accumulation, verbose output and manifest parsing of the suite runner.
- The wording of diff lines and the JSON envelope around them.
- The `--max-size` check on file metadata, and the transcoding that follows the slurped read.
- Symbolic links, hard links and case-insensitive file names in the in-place replacement.
- Whitespace trimming and entity expansion by the event reader; malformed documents.
- The IBM037 table itself: the result holds for every table of 256 entries.
