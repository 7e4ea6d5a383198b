# DAGOS, modelled and proved

DAGOS runs language models over a durable graph of nodes and edges. Each message starts a run: the run
carries the context of its conversation, has a classifier (Jev) decide what is relevant, compiles an
inference representation (IR) that must fit the model's window, calls a provider, applies the reply's
nodes and edges, and loops through tool calls and code reviews until it is done, fails or is stopped.
Everything that happens is an event of the run's append-only history.

This project models that engine and the parsers around it, and proves what its documentation and tests
promise.

* **The store and every history of it.** `Database` says what each transaction makes of the tables;
  `Storage` is the store itself, a class whose methods change the tables in place, commit or roll back,
  and are proved to do what `Database` says. `Histories` and `Reachable` let transactions of any number
  of runs interleave and be cut off anywhere, and prove what every reachable store satisfies: an
  acyclic graph inside each project, one running run per project, gap-free histories that end exactly
  once, tables that the events alone rebuild, finished runs that never change, runs that never disturb
  each other, and a run that can be failed wherever it was stopped. `EdgeBatches` and `Responses` say
  exactly which replies the graph accepts.
  `Findings`, `Tasks` and `Endings` add what a review's findings leave, that compiling a run's IR always
  succeeds, and how runs end; `Scenario` is a small reachable store for the examples.
* **One run, executed.** `Execution` says what an executing run may record, event by event, and what
  follows for whole histories. `Exchanges` says what a run records exchange by exchange and when it goes on,
  and `Courses` what follows: how it ends, and that the model is shown the results of the calls it made and the
  review it is to address. `Pipelines` is the tool and review loop itself, in an arbitrary world
  (what Jev, the provider, the gate, tools and reviews answer) and with a possible stop at every await. It
  works on the store through `Journals`: each of its transactions is a step of `Histories`, any steps of other runs may come in between, and the
  tables are at every point what those steps make of the ones it began with. `Announced` says what each
  transaction appends.
* **What a model sees.** `Compilation` compiles IR, `Turns` and `Recalls` pick the turns it carries,
  `Fitting` leaves out what does not fit, `ToolLog` relates IR's tool results to the inspector's,
  `Projection` classifies context.
* **Streaming and parsing.** `Prose`, `ProseCorrect` and `NativeNotes` prove the character machine that
  extracts a reply's prose while it streams, against a grammar of JSON texts (`JsonText`, RFC 8259).
  `Calendar` and `Timestamps` cover dates and instants (RFC 3339), `Masking`, `Sources` and `Scanning` the
  search for functions in source code, `Batching` the splitting of relevance requests, and `Approvals`
  the gate that decides tool calls.

Operations that the code performs step by step are methods with loops, or methods of classes whose
fields they update; each is proved against a function that says what it computes, and the lemmas are
about that function.

## Results the code does not meet as it is documented

* The header comment of `runtime.rs` (lines 10-12) says that `run.completed` is committed with a reply and
  its emissions, or none of them is. The code commits it in a transaction of its own
  (`crates/dagos-core/src/runtime.rs:398` and `435`). `Endings.StoppedAfterReply` shows that from any store
  where a reply is applied the run can still be stopped, which leaves the reply and its nodes in a failed
  run, and `Endings.StoppedBetween` gives a reachable store where it happens. `Endings.CompletedExactly`
  says when the two do go together: exactly when completing the run is the first step that ends it.
* `record_findings` promises that a finding the project already has a node for is not recorded twice
  (`crates/dagos-core/src/runtime.rs:865-869`), but existing findings are read once (lines 877-886).
  `Findings.RecordedOnceExactly` says that a batch keeps the promise exactly when no finding that is new
  is repeated in it; `Findings.RecordedTwice` and `Findings.RepeatedFindingInStore` show it broken
  otherwise, the latter in a reachable store.
* Masking (`crates/dagos-lint/src/extract.rs:245-358`) misreads some literals and comments.
  `Sources.MasksExactly` proves that sources written without them are masked exactly as intended.
  * Rust's character literal of an escaped quote is taken to end at the escaped quote:
    `Masking.EscapedCharEnds` says exactly when the scan is right and `Masking.EscapedQuoteLeaks` gives a brace
    left unmasked.
  * Rust's block comments are taken to end at the first closing: `Masking.NestedCommentEnds` says exactly when
    that is their end and `Masking.NestedCommentLeaks` gives a brace left unmasked.
  * Rust's byte and C raw strings, with any number of hashes, are read as ordinary strings
    (`Masking.ByteRawScanned`): `Masking.ByteRawEnds` says exactly when that finds their closing quote,
    `Masking.ByteRawHides` gives code that is blanked and `Masking.ByteRawLeaks` a brace left unmasked.
  * Python's texts between three quotes are taken to end at the first three quotes in a row, escaped or not:
    `Masking.TripleEnds` says exactly when that is their end and `Masking.TripleHides` gives code that is blanked.
  * JavaScript's templates are taken to end at the first unescaped backtick, though it be inside an expression:
    `Masking.TemplateEnds` says exactly when that is their end and `Masking.TemplateLeaks` gives a brace left
    unmasked. Regular expressions are read as code: `Sources.CodeLeftExactly` says exactly which characters of
    code are left alone and `Masking.RegexHides` gives code that is blanked.

## Model

| member | source | states |
|---|---|---|
| Calendar.CivilOfDaysOfCivil | crates/dagos-core/src/domain/time.rs:107-129 | every valid proleptic Gregorian date, of any year, comes back from its day number |
| Calendar.DaysOfCivilOfDays | crates/dagos-core/src/domain/time.rs:107-129 | every integer day number gives a valid date whose day number it is |
| Calendar.DaysFromCivilCounts | crates/dagos-core/src/domain/time.rs:107-113 | the closed formula equals the sum of the year and month lengths under the leap-year rule |
| Calendar.DaysOrderDates | crates/dagos-core/src/domain/time.rs:107-113 | day numbers order valid dates as the calendar does |
| Timestamps.Parse | crates/dagos-core/src/domain/time.rs:43-78 | an accepted text is exactly what its instant prints as |
| Timestamps.ParsePrint | crates/dagos-core/src/domain/time.rs:43-90 | parsing a printed instant gives the instant back |
| Timestamps.PrintIsCanonical | crates/dagos-core/src/domain/time.rs:81-90 | what is printed is the 24-byte canonical text of a real date and time |
| Timestamps.ParseCanonical | crates/dagos-core/src/domain/time.rs:43-78 | the canonical text of every real date and time of 1970 to 9999 is accepted, as its instant |
| Timestamps.ParseAcceptsExactly | crates/dagos-core/src/domain/time.rs:43-78 | nothing else is accepted |
| Timestamps.TextOrderIsInstantOrder | crates/dagos-core/src/domain/time.rs:81-90 | byte order of printed instants is their order in time |
| Prose.ProseExtractor.Push | crates/dagos-openai/src/prose.rs:45-55 | pushing a chunk takes the extractor's fields and output where the character machine goes |
| Prose.ProseExtractor.StructuralChar | crates/dagos-openai/src/prose.rs:57-97 | one character between strings updates frames, keys and line state as the machine does |
| Prose.ProseExtractor.StringChar | crates/dagos-openai/src/prose.rs:99-143 | one character inside a string decodes escapes and emits as the machine does |
| JsonText.ShortDenotes | crates/dagos-openai/src/prose.rs:101-114 | the short escapes are the eight of RFC 8259, and each stands for its code point |
| ProseCorrect.ShortEscapeDenotes | crates/dagos-openai/src/prose.rs:99-143 | read inside a string, each of them adds exactly that character |
| JsonText.HexDigitDenotes | crates/dagos-openai/src/prose.rs:115-123 | a digit, in lower or upper case, has the value of its place among the sixteen |
| JsonText.FourHexValue | crates/dagos-openai/src/prose.rs:115-123 | four digits give their number, the most significant first |
| JsonText.SurrogatesDenote | crates/dagos-openai/src/prose.rs:145-160 | two escapes that form a surrogate pair denote the character UTF-16 encodes as those units |
| JsonText.WhitespaceIs | crates/dagos-openai/src/prose.rs:1-8 | whitespace inside a document is the four characters of RFC 8259 |
| JsonText.TokenCharsAre | crates/dagos-openai/src/prose.rs:1-8 | numbers and literal names are written with token characters, and nothing that ends a token is one |
| Prose.SpacesAre | crates/dagos-openai/src/prose.rs:57-70 | whitespace before the document is Unicode's |
| Prose.ProseExtractor.DecodeUtf16 | crates/dagos-openai/src/prose.rs:145-160 | a UTF-16 unit updates the pending high surrogate and completes at most one character |
| Prose.ProseExtractor.CloseString | crates/dagos-openai/src/prose.rs:162-171 | a closing quote ends the string and, for a key, names the next value |
| Prose.ExtractInChunks | crates/dagos-openai/src/prose.rs:45-55 | over any chunking the pieces add up to what the whole text yields |
| ProseCorrect.RunDoc | crates/dagos-openai/src/prose.rs:57-171 | however a value is written, reading it restores the frames and emits exactly its prose strings |
| ProseCorrect.ExtractsEveryProse | crates/dagos-openai/src/prose.rs:45-181 | for every object however written, after any preamble and before anything, the output is every string at presentation.prose, decoded |
| ProseCorrect.ExtractsTheProse | crates/dagos-openai/src/prose.rs:45-181 | with distinct keys that is the one string at root.presentation.prose, or nothing |
| JsonWriting.DocOf | crates/dagos-openai/src/prose.rs:1-8 | every JSON value has a well-formed text, so the extraction results leave no value out |
| NativeNotes.NativeProse.Push | crates/dagos-openai/src/native.rs:168-197 | pushing a chunk keeps the streamer in step with its character machine |
| NativeNotes.NativeRefinesTrimAndExtract | crates/dagos-openai/src/native.rs:168-197 | the output is the text before the first line-opening brace without leading whitespace, then the extractor's output on the whole text |
| NativeNotes.StreamChunks | crates/dagos-openai/src/native.rs:168-197 | the same for every chunking |
| Graph.ReachWithNew | crates/dagos-core/src/store/dag.rs:207-220 | one new arrow adds exactly the paths that cross it once |
| Graph.AcyclicWithNew | crates/dagos-core/src/store/dag.rs:167-171 | a new arrow keeps an acyclic graph acyclic exactly when its head does not reach its tail |
| Storage.Store.Reaches | crates/dagos-core/src/store/dag.rs:207-220 | the growing set of reached nodes decides exactly whether a path exists |
| Storage.Store.ValidateEdge | crates/dagos-core/src/store/dag.rs:137-173 | refuses unknown endpoints, self-loops, duplicates and cycles, in that order, and nothing else |
| Storage.Store.InsertEdge | crates/dagos-core/src/store/dag.rs:106-135 | inserts the edge or refuses it, leaving the tables as they were |
| Storage.Store.InsertNode | crates/dagos-core/src/store/dag.rs:38-66 | adds exactly one node to the project |
| Storage.Store.AppendEvent | crates/dagos-core/src/store/events.rs:31-61 | appends one event with the run's next number, only while the run is running |
| Storage.Store.CreateRunIn | crates/dagos-core/src/store/runs.rs:53-102 | creates a running run and its first event, unless the project has one running |
| Storage.Store.CompleteRun | crates/dagos-core/src/store/runs.rs:173-203 | records the terminal event and the status together, only while the run is running |
| Storage.Store.FailRun | crates/dagos-core/src/store/runs.rs:180-203 | the same for a failure and its code |
| Storage.Store.ReplaceContext | crates/dagos-core/src/store/context.rs:40-69 | writes the membership as a whole; refuses a repeated or foreign node, the first in order |
| Storage.Store.CarryContext | crates/dagos-core/src/context/projection.rs:44-63 | the previous run's members become the new run's, as carried, and are recorded |
| Storage.Store.ApplyClassification | crates/dagos-core/src/context/projection.rs:145-186 | active entries join and inactive ones leave; the change is recorded, joins before leaves |
| Storage.Store.ExpandContext | crates/dagos-core/src/runtime.rs:918-940 | every node of the project but the task joins, each recorded |
| Storage.Store.CreateNodes | crates/dagos-core/src/runtime.rs:1003-1017 | creates and announces the emitted nodes in order and maps refs to them |
| Storage.Store.CreateEdges | crates/dagos-core/src/runtime.rs:1018-1037 | creates and announces the emitted edges in order, endpoints resolved |
| Storage.Store.ApplyResponse | crates/dagos-core/src/runtime.rs:999-1038 | records the response, then its nodes, then its edges, stopping at the first refusal |
| Storage.Store.RecordFindings | crates/dagos-core/src/runtime.rs:870-913 | records each finding the project had no node for when the batch began |
| Storage.Store.StartRun | crates/dagos-core/src/runtime.rs:280-309 | run, task node, message and carried context, in one transaction |
| Storage.Store.FailWith | crates/dagos-core/src/runtime.rs:344-350 | the evidence, if any, and then the failure |
| Storage.Store.Rollback | crates/dagos-core/src/store.rs:155-183 | restores the tables the transaction began with and tells listeners nothing |
| Storage.Store.Commit | crates/dagos-core/src/store.rs:155-183 | keeps the tables and tells listeners exactly what was appended, in order |
| Storage.Store.Respond | crates/dagos-core/src/runtime.rs:398-409 | a reply leaves its whole effect or none of it, and listeners hear of none of a refused one |
| Storage.Store.Fail | crates/dagos-core/src/runtime.rs:344-350 | failing a run commits evidence and failure together |
| Invariants.AppendKeepsInv | crates/dagos-core/src/store/events.rs:31-61 | one more event of a running run keeps every invariant of the store |
| Invariants.NodeKeepsInv | crates/dagos-core/src/runtime.rs:1006-1015 | a node and its announcement keep every invariant |
| Invariants.EdgeKeepsInv | crates/dagos-core/src/runtime.rs:1025-1036 | an accepted edge and its announcement keep every invariant, acyclicity included |
| ContextSteps.ReplacesContext | crates/dagos-core/src/store/context.rs:40-69 | a membership is stored exactly when every member is a node of the run's project |
| ContextSteps.RefusedForFirst | crates/dagos-core/src/store/context.rs:40-69 | a refused membership is refused for its first wrong row: one that repeats a node, or one foreign to the project |
| ContextSteps.ContextKeepsInv | crates/dagos-core/src/context/projection.rs:145-186 | a context change never fails, and its events replay to exactly the new membership |
| RunSteps.StartsRun | crates/dagos-core/src/runtime.rs:280-309 | starting succeeds exactly when the conversation exists, its project is idle and the ids are free, and otherwise says which fails first |
| RunSteps.StartsAsTold | crates/dagos-core/src/runtime.rs:280-309 | a started run is a running row, a task node that holds the message, and the members of the run before it in its conversation, all as carried; nothing else changes in those tables |
| RunSteps.StartIsRecorded | crates/dagos-core/src/runtime.rs:280-309 | its history holds its start, its message, and the members carried and from which run |
| RunSteps.StartKeepsInv | crates/dagos-core/src/runtime.rs:280-309 | a started run keeps every invariant: its context is what was carried and excludes its task |
| RunSteps.CompleteKeepsInv | crates/dagos-core/src/store/runs.rs:173-176 | completing a run keeps every invariant |
| RunSteps.FailKeepsInv | crates/dagos-core/src/store/runs.rs:180-188 | failing a run keeps every invariant |
| EdgeBatches.AcceptedIffAdmissible | crates/dagos-core/src/runtime.rs:1023-1036 | edges inserted one by one are all accepted if and only if the batch has no self-loop, distinct new triples, and an acyclic union with the graph |
| EdgeBatches.OrderDoesNotMatter | crates/dagos-core/src/runtime.rs:1023-1036 | acceptance does not depend on the order of emission |
| EdgeBatches.RefusedBecause | crates/dagos-core/src/store/dag.rs:137-173 | a refused edge has what its refusal says, and nothing that is checked for earlier |
| Responses.ValidateResponse | crates/dagos-core/src/response.rs:50-77 | accepts exactly replies with unique refs and known endpoints; reports the first violation |
| Responses.ApplyKeepsInv | crates/dagos-core/src/runtime.rs:999-1038 | an applied reply keeps every invariant and touches no other run |
| Responses.AddsWhatIsEmitted | crates/dagos-core/src/runtime.rs:1003-1017 | an applied reply adds exactly the nodes it emits, each under its id with its type and its payload, and leaves the nodes there were alone |
| Responses.AddsEdgesEmitted | crates/dagos-core/src/runtime.rs:1018-1037 | and exactly the edges it emits, each of its type and from the node its one end means to the node its other end means |
| Responses.VisibleInProject | crates/dagos-core/src/ir.rs:78-96 | whatever an IR of a run showed is still a node of its project |
| Responses.AcceptsExactly | crates/dagos-core/src/runtime.rs:999-1038 | a validated reply is refused only as a self-loop, a duplicate or a cycle, and accepted exactly when its edges fit as a whole |
| Projection.ValidateClassification | crates/dagos-core/src/context/projection.rs:113-140 | accepts exactly entries that are candidates, each once, and tools alike; reports a violation |
| Projection.RequestCandidates | crates/dagos-core/src/context/projection.rs:67-107 | the candidates are exactly the project's nodes but the task |
| Projection.RequestTells | crates/dagos-core/src/context/projection.rs:67-107 | each candidate has its node's type and says whether it is in the run's context |
| Projection.RequestEdges | crates/dagos-core/src/context/projection.rs:67-107 | the edges told are exactly the graph's between two candidates |
| Projection.MembershipOf | crates/dagos-core/src/context/projection.rs:149-163 | after applying, a node is a member if it was made active, or was one and was not classified |
| Projection.MembershipIgnoresOrder | crates/dagos-core/src/context/projection.rs:149-163 | a validated classification has the same effect in any order of its entries |
| Projection.PolicyDecidesAlone | crates/dagos-core/src/context/fake_jev.rs:66-102 | the offline policy's output passes validation and decides the membership whatever was carried |
| Projection.PolicyFixesContext | crates/dagos-core/src/context/fake_jev.rs:66-102 | asked about a run, it leaves exactly the nodes not superseded and, of the conversation, the latest turns |
| Histories.ClassifyKeepsInv | crates/dagos-core/src/runtime.rs:723-744 | a validated classification can always be applied, and keeps every invariant |
| Histories.ExpandsToAll | crates/dagos-core/src/runtime.rs:918-940 | an expanded context holds exactly the project's nodes but the task, those that were members as they were, and nothing else changes |
| Histories.RememberKeepsInv | crates/dagos-core/src/runtime.rs:870-913 | recording findings keeps every invariant and only adds |
| Histories.FailAlways | crates/dagos-core/src/runtime.rs:320-352 | a running run can be failed at any point; only its row and its history change |
| Histories.StepKept | crates/dagos-core/src/runtime.rs:280-435 | every transaction keeps every invariant and changes only its own run and, by growing, the graph |
| Reachable.AlwaysInv | crates/dagos-core/src/runtime.rs:280-435 | the invariants hold after any interleaving of transactions of any runs, cut off anywhere |
| Reachable.HistoriesSound | crates/dagos-core/src/store/events.rs:1-5 | every history is numbered 1 to n, opened in order, and ended by one terminal event exactly when the run has finished |
| Reachable.EventsRebuildTables | crates/dagos-core/src/context/projection.rs:44-63 | replaying the events rebuilds nodes, edges and every run's context, which never holds the run's task |
| Reachable.ReachabilityIsProjectWide | crates/dagos-core/src/store/dag.rs:207-220 | no edge crosses projects and none closes a cycle, so the unscoped search decides paths inside the project |
| Reachable.FinishedFrozen | crates/dagos-core/src/store/context.rs:6-6 | a finished run's row, history and context never change again |
| Reachable.OthersUntouched | crates/dagos-core/src/runtime.rs:320-352 | whatever other runs do, a run's row, history and context stay as it left them |
| Reachable.OnlyGrows | crates/dagos-core/src/store/events.rs:3-4 | nodes, edges and events are never changed or removed |
| Reachable.CompiledPersists | crates/dagos-core/src/ir.rs:64-111 | an IR a run compiled stays the one its reply is checked against |
| Reachable.ResponsesAccepted | crates/dagos-core/src/runtime.rs:392-409 | a validated reply, applied however much later, is accepted exactly when its edges fit the graph as it then is |
| Reachable.StopAnywhere | crates/dagos-core/src/runtime.rs:314-352 | wherever a run is stopped, failing it succeeds, keeps what was committed, and frees the project |
| Findings.RecordsEachNew | crates/dagos-core/src/runtime.rs:870-913 | recording adds exactly one observation for each finding the project had no node for when the batch began, and no other node |
| Findings.EachIsRemembered | crates/dagos-core/src/runtime.rs:865-913 | afterwards the project has an observation with the rule, file and function of every finding of the batch |
| Findings.NoneForRemembered | crates/dagos-core/src/runtime.rs:865-913 | no node was added for a finding it had one for before |
| Findings.RecordedOnceExactly | crates/dagos-core/src/runtime.rs:865-886 | a batch records no finding twice if and only if no new finding is repeated in it |
| Findings.RecordedTwice | crates/dagos-core/src/runtime.rs:865-886 | two equal new findings under fresh ids give two nodes with the same payload |
| Findings.RepeatedFindingInStore | crates/dagos-core/src/runtime.rs:865-886 | a reachable store where that happens |
| Tasks.TasksTold | crates/dagos-core/src/runtime.rs:298-305 | in every reachable store every run's task node is the message it was started with |
| Tasks.CompileSucceeds | crates/dagos-core/src/ir.rs:64-111 | compiling a run's IR succeeds in every reachable store, whatever its history, and shows the run's message |
| Tasks.EverythingAlwaysCarried | crates/dagos-core/src/runtime.rs:612-621 | so a running run that asks for everything, without a budget, always gets each finished turn of its project once |
| Endings.StatusIs | crates/dagos-core/src/store/runs.rs:173-203 | whatever steps are taken, a run's status is what the first step that ended it made of it |
| Endings.StoppedAfterReply | crates/dagos-core/src/runtime.rs:398-435 | a run whose reply was applied can be failed before it is completed, and then keeps the reply and its nodes |
| Endings.CompletedExactly | crates/dagos-core/src/runtime.rs:398-435 | after an applied reply the run ends completed if and only if completing it comes before failing it, whatever else is done; the reply stays recorded either way |
| Endings.StoppedBetween | crates/dagos-core/src/runtime.rs:398-435 | a reachable store where a run is stopped in between |
| Turns.StepsBack | crates/dagos-core/src/store/runs.rs:133-148 | the previous run is the last of the conversation's earlier turns, and stepping back drops it |
| Turns.RecentRunOutcomes | crates/dagos-core/src/ir.rs:115-165 | walking back finds exactly the last turns of the conversation and tells them oldest first |
| Turns.RecentTurnsTold | crates/dagos-core/src/ir.rs:115-165 | no turn is skipped as still running; each is told with its message and how it ended |
| Turns.RecallCandidates | crates/dagos-core/src/context/recall.rs:67-107 | the candidates are the project's finished turns the IR does not carry, oldest first |
| Turns.TurnsPartition | crates/dagos-core/src/context/recall.rs:67-107 | the run, its recent turns and its candidates partition the project's runs, for any window |
| Turns.RecallEverything | crates/dagos-core/src/runtime.rs:612-621 | every candidate is recalled, scores rising with recency within (0, 1] |
| Turns.RecallsRelevant | crates/dagos-core/src/context/recall.rs:111-121 | the turns selected are exactly the candidates scored at or above the threshold, each with its score |
| Turns.RecallsOldestFirst | crates/dagos-core/src/context/recall.rs:109-121 | selected from the project's candidates they come oldest first |
| Recalls.ProjectStays | crates/dagos-core/src/store/runs.rs:53-102 | while a run is running no other turn of its project comes, goes or changes, whatever steps are taken |
| Recalls.RecalledInIr | crates/dagos-core/src/runtime.rs:750-821 | whatever a run recalled, everything or the relevant, and whatever has happened since, its fitted IR carries what is left of it oldest first, each turn told whole, beside the turns it tells and never one of them, and shows the review to address |
| ToolLog.ToolResults | crates/dagos-core/src/ir.rs:169-212 | one pass over the history, editing entries in place, gives the results fold |
| ToolLog.ToolCalls | crates/dagos/src/inspect.rs:127-133 | one pass gives the inspector's fold |
| ToolLog.ApplyToolEvent | crates/dagos/src/inspect.rs:136-174 | one event updates the calls in place and says whether it was a tool event |
| ToolLog.AccountsAgree | crates/dagos-core/src/ir.rs:169-212 | in any history that keeps the call protocol the two folds tell each call alike |
| ToolLog.EveryCallOnce | crates/dagos-core/src/ir.rs:169-212 | IR lists every call exactly once, in order, and so does the inspector |
| ToolLog.SettledCallsAgree | crates/dagos/src/inspect.rs:127-174 | a settled call has the same outcome, reason and output in both, but for outputs left out |
| ToolLog.TellsWhatHappened | crates/dagos-core/src/ir.rs:169-212 | in any history that keeps the protocol both accounts tell of each call what the history holds: its name and arguments, who decided it and why, and what it gave |
| Announced.ReplyTells | crates/dagos-core/src/runtime.rs:999-1038 | an applied reply appends its record, then each node in order, then each edge between the nodes meant |
| Announced.FindingsTell | crates/dagos-core/src/runtime.rs:870-913 | recording findings appends one announcement for each that was new |
| Announced.ClassificationTells | crates/dagos-core/src/context/projection.rs:145-186 | an applied classification appends its record and then only joins and leaves |
| Compilation.CompileWith | crates/dagos-core/src/ir.rs:64-111 | reads the task, the members with their relations, the recent turns and the tool results |
| Compilation.ShowsContext | crates/dagos-core/src/ir.rs:78-96 | an IR shows exactly the run's members, oldest first, each with its node's type and payload, never the task among them |
| Compilation.ShowsRelations | crates/dagos-core/src/ir.rs:78-96 | a shown item's relations are all the graph's edges from it to the task and shown nodes |
| Compilation.RelationsSplit | crates/dagos-core/src/ir.rs:85-89 | relations come one for each edge, in the order of the edges |
| Fitting.DropOrder | crates/dagos-core/src/runtime.rs:766-769 | a stable order of every index, least relevant first |
| Fitting.FindEarlier | crates/dagos-core/src/runtime.rs:800-804 | the oldest output of an earlier round that is still in |
| Fitting.LeaveOut | crates/dagos-core/src/runtime.rs:792-818 | each round gives something up or finds nothing left, in priority order; each thing only while the sizes given up before it do not exceed the excess, and the round ends as soon as they do |
| Fitting.CompileIr | crates/dagos-core/src/runtime.rs:750-821 | always ends; sends an IR under the budget unless nothing more can be left out; turns, then outputs, then the window; nothing while everything fits; and is the outcome of such rounds, each from an IR that was over the budget |
| Fitting.DroppedOnlyIfOver | crates/dagos-core/src/runtime.rs:792-799 | a recalled turn is left out only if the IR compiled just before was over by no less than that round had already given up |
| Fitting.OmittedOnlyIfOver | crates/dagos-core/src/runtime.rs:800-809 | an output only if all recalled turns left and the outputs before it did not make up for the excess |
| Fitting.NarrowedOnlyIfOver | crates/dagos-core/src/runtime.rs:810-814 | the window only if every turn and every output left did not, and then to one turn less than was told |
| Fitting.FitCarries | crates/dagos-core/src/runtime.rs:774-783 | a fitted IR carries the step's review, its kept turns, and the history's results, none of the latest round's outputs left out |
| Fitting.KeptTurnsAre | crates/dagos-core/src/runtime.rs:774-780 | the turns an IR recalls are exactly those kept, whole |
| Fitting.KeptStayInOrder | crates/dagos-core/src/runtime.rs:774-780 | of turns recalled in chronological order exactly the kept ones remain, still in that order |
| Fitting.EverythingCarried | crates/dagos-core/src/runtime.rs:612-621 | asked for everything, with no budget, the IR carries each finished turn exactly once |
| Journals.Perform | crates/dagos-core/src/runtime.rs:280-435 | any step carried out on the store itself does to the tables what `Histories` says, or nothing |
| Journals.RespondFollows | crates/dagos-core/src/runtime.rs:392-409 | a reply validated against an IR the run recorded is a permitted step however far other runs have moved the store; applied, it extends the run's record by exactly its announcements |
| Journals.ClassifyFollows | crates/dagos-core/src/runtime.rs:688-744 | an answer valid for what the run recorded asking is a permitted step and always applies |
| Journals.Journal.CompileIr | crates/dagos-core/src/runtime.rs:750-821 | the IR recorded is compiled for the run's own task from the tables as other runs have left them, in rounds that give up no more than they must, in order, and over the budget only if nothing more can be given up |
| Journals.Journal.Respond | crates/dagos-core/src/runtime.rs:398-409 | with any steps of other runs before it, a reply is recorded with all it creates, its nodes as they were emitted, or not at all |
| Journals.StatusTold | crates/dagos-core/src/store/runs.rs:173-203 | a run is completed or failed exactly when that is the last thing it recorded |
| Journals.StaysReachable | crates/dagos-core/src/runtime.rs:320-436 | executing a run, together with whatever others do meanwhile, leads from a reachable store to a reachable store |
| Pipelines.Pipeline.Execute | crates/dagos-core/src/runtime.rs:354-436 | at most T + max(R, 1) inferences and T + 1 tool rounds, however it ends; a sound record; it ends well exactly by completing the run, after exchanges of which each but the last needed another and the last did not; it fails only for a cause that arose |
| Pipelines.Pipeline.Converse | crates/dagos-core/src/runtime.rs:367-434 | the loop: each exchange is given what was recalled, the review handed back last and the latest round, and follows the one before exactly when that needs it |
| Pipelines.Pipeline.Gather | crates/dagos-core/src/runtime.rs:563-621 | what is recalled is chosen from the project's candidates as they then are: all, or the relevant, or none |
| Courses.EndsAnswered | crates/dagos-core/src/runtime.rs:379-434 | a completed run's last reply either asks for tools past the last round, or asks for none and no review of it must be addressed; every earlier reply is followed by another IR and another inference |
| Courses.SeesItsCalls | crates/dagos-core/src/runtime.rs:379-434 | whatever a reply asked for, the next IR shows each call of the round under its name and arguments, refused with the reason or with the whole output it gave, however little fits the window |
| Courses.SeesItsReview | crates/dagos-core/src/runtime.rs:410-417 | a review to address is in the next IR, with its number and all it found |
| Pipelines.Pipeline.FinishRun | crates/dagos-core/src/runtime.rs:320-352 | whatever happened, the run is completed, or failed, for a cause that arose, with the evidence recorded right before the failure, and its row says so |
| Pipelines.Pipeline.RunTool | crates/dagos-core/src/runtime.rs:439-508 | a call is requested, decided once, by the limit, by there being no such tool or by the gate, and, only if allowed, completed with what the tool gave |
| Pipelines.Pipeline.RunTools | crates/dagos-core/src/runtime.rs:418-430 | a round's calls are handled one by one, in order, with their names and arguments, under consecutive ids |
| Pipelines.Pipeline.Review | crates/dagos-core/src/runtime.rs:510-561 | a review is held exactly if there is a reviewer, reviews are left and it judged something or failed; it is handed back exactly when it found something, the code is not what was handed back before, and reviews are left; findings not handed back get the nodes the project lacks |
| Pipelines.Pipeline.ClassifyContext | crates/dagos-core/src/runtime.rs:688-744 | what is classified is Jev's answer if that is valid, and otherwise its fallback's, if there is one and that is |
| Pipelines.Pipeline.Infer | crates/dagos-core/src/runtime.rs:824-863 | the inference's start, each piece of text the provider streamed, in order, and its output |
| Pipelines.Pipeline.ApplyResponse | crates/dagos-core/src/runtime.rs:393-409 | the reply the output says is recorded only if valid against its IR, followed by exactly what it creates; refused, it leaves nothing, as invalid exactly if it is |
| Pipelines.ResultsTellCalls | crates/dagos-core/src/ir.rs:169-212 | at any point of its execution the results a run's history gives are its calls, numbered from 1 without a gap, each once and in order |
| Pipelines.StartedRunTellsCalls | crates/dagos-core/src/ir.rs:169-212 | the same for every run executed from its start, whose history opens with no call |
| Execution.CallsNumbered | crates/dagos-core/src/runtime.rs:418-426 | call ids are 1, 2, 3, … |
| Execution.SoundIsProper | crates/dagos-core/src/runtime.rs:439-508 | every history the pipeline records keeps the protocol of calls |
| Execution.NoCallPastLimit | crates/dagos-core/src/runtime.rs:417-433 | no call is allowed or executed in a round past the limit, none of an unlisted tool |
| Execution.HiddenNeverRuns | crates/dagos-core/src/runtime.rs:985-997 | a tool that is not on offer, or that Jev classified inactive, is never allowed to run |
| Execution.ReviewsNumbered | crates/dagos-core/src/runtime.rs:514-546 | reviews are numbered from 1 and within the allowance |
| Execution.ReviewsBounded | crates/dagos-core/src/runtime.rs:514-546 | there are at most as many reviews as allowed |
| Batching.RecallBatches | crates/dagos-openai/src/protocol.rs:266-283 | non-empty consecutive batches that concatenate to the chunks, each within the limit or one chunk, as few as any such split |
| Batching.Reassemble | crates/dagos-openai/src/lib.rs:409-430 | for every order of completion the scores are those of batch 0, then 1, and so on |
| Batching.FlatAligned | crates/dagos-openai/src/lib.rs:409-430 | the k-th score of a batch lands where the k-th chunk of that batch is |
| Masking.StringEnd | crates/dagos-lint/src/extract.rs:327-338 | the end is just after the first quote with an even number of backslashes before it, or, for a single quote, before the line's end if that comes first, or the end of the text |
| Masking.RawEndIs | crates/dagos-lint/src/extract.rs:341-349 | a raw string is one exactly when a quote follows its hashes, and ends after the first quote followed by as many |
| Sources.FindsPiece | crates/dagos-lint/src/extract.rs:258-305 | where a comment or literal of a well-formed source stands the region found is the whole of it, and where code stands none is found, in each language |
| Sources.MasksExactly | crates/dagos-lint/src/extract.rs:243-312 | masking a source written as code, comments and literals blanks every comment and literal and leaves every character of code |
| Masking.Mask | crates/dagos-lint/src/extract.rs:245-312 | ends on every source, blanking every region and keeping the rest |
| Masking.MaskCovers | crates/dagos-lint/src/extract.rs:245-312 | same byte length, every newline in place, every other byte kept or turned into a space |
| Common.Utf8LengthIsLeast | crates/dagos-lint/src/extract.rs:250-257 | a character counts as many bytes as the shortest UTF-8 encoding that reaches it |
| Masking.EscapedCharEnds | crates/dagos-lint/src/extract.rs:352-358 | the end of an escaped character literal is found exactly when the escaped character is not a quote |
| Masking.EscapedQuoteLeaks | crates/dagos-lint/src/extract.rs:352-358 | a source whose brace inside a literal is not masked |
| Masking.NestedCommentEnds | crates/dagos-lint/src/extract.rs:264-265 | a Rust block comment is found to end where it does exactly when no comment opens inside it before the first closing |
| Masking.NestedCommentLeaks | crates/dagos-lint/src/extract.rs:264-265 | a source whose brace inside a nested comment is not masked |
| Masking.ByteRawScanned | crates/dagos-lint/src/extract.rs:272-288 | an `r` after a letter starts no raw string: it and its hashes are left as code and its quote opens an ordinary string |
| Masking.ByteRawEnds | crates/dagos-lint/src/extract.rs:272-288 | a byte or C raw string, with any number of hashes, is found to end at its closing quote exactly when no quote before that one is unescaped, and neither is that one escaped unless nothing follows |
| Masking.ByteRawHides | crates/dagos-lint/src/extract.rs:272-288 | a source whose brace after a byte raw string is blanked |
| Masking.ByteRawLeaks | crates/dagos-lint/src/extract.rs:272-288 | a source whose brace inside a byte raw string with a hash is not masked |
| Masking.TripleEnds | crates/dagos-lint/src/extract.rs:266-271 | a Python text between three quotes is found to end where it does exactly when the first three quotes in a row, if any, are not escaped |
| Masking.TripleHides | crates/dagos-lint/src/extract.rs:266-271 | a source whose code after a text between three quotes is blanked |
| Masking.TemplateEnds | crates/dagos-lint/src/extract.rs:285-288 | a template is found to end at its closing backtick exactly when every backtick before that one is escaped, and that one is not unless nothing follows |
| Masking.TemplateLeaks | crates/dagos-lint/src/extract.rs:285-288 | a source whose brace inside a nested template is not masked |
| Sources.CodeLeftExactly | crates/dagos-lint/src/extract.rs:258-305 | in Python, JavaScript and TypeScript a character of code, a regular expression's included, is left alone exactly when it is no quote of the language and starts no comment of it |
| Masking.RegexHides | crates/dagos-lint/src/extract.rs:285-305 | a source whose brace after a regular expression is blanked |
| Scanning.BodyStart | crates/dagos-lint/src/extract.rs:128-149 | the first brace outside parentheses with nothing before it that ends the header: no semicolon, and after an arrow nothing written and no line's end; none exactly if there is no such brace |
| Scanning.MatchingBrace | crates/dagos-lint/src/extract.rs:151-166 | the brace that closes the body, which is balanced and open throughout; none if it never closes |
| Scanning.BraceFunctions | crates/dagos-lint/src/extract.rs:104-124 | one span per header with a body, skipping headers inside the span before |
| Scanning.FunctionsInOrder | crates/dagos-lint/src/extract.rs:104-124 | the spans are increasing, disjoint and in bounds, each ending with a balanced body |
| Scanning.FindsFunctions | crates/dagos-lint/src/extract.rs:104-124 | every span is a function a header starts, under its name and none of the keywords, and no function is missed that does not start inside one found before |
| Scanning.PythonFunctions | crates/dagos-lint/src/extract.rs:175-216 | one span per header, skipping headers inside the span before |
| Scanning.PyFunctionsInOrder | crates/dagos-lint/src/extract.rs:175-216 | the spans are increasing, disjoint and in bounds |
| Scanning.PyBodyIsExact | crates/dagos-lint/src/extract.rs:183-213 | a span, under its header's name, holds the header up to the end of the line of the first colon outside brackets, and then exactly the lines indented deeper, with the blank ones between |
| Scanning.FindsPyFunctions | crates/dagos-lint/src/extract.rs:175-216 | every span is some header's, and every header lies in one |
| Approvals.EffectivePolicy | crates/dagos/src/approvals.rs:107-123 | the strictest policy of the tool and those it names, the first that is off, and those set to ask |
| Approvals.DecideAlone | crates/dagos/src/approvals.rs:183-233 | off refuses; all allow without concern allows; otherwise a person is asked if one can be |
| Approvals.AloneIs | crates/dagos/src/approvals.rs:183-233 | exactly when policies allow, when they refuse and when a person is asked |
| Approvals.AskingAre | crates/dagos/src/approvals.rs:107-123 | the tools listed as asking are exactly those named whose policy is to ask |
| Approvals.EndsAsItEnded | crates/dagos/src/approvals.rs:236-257 | the reply received, the time running out or the run being dropped decides the verdict, whatever happens after |
| Approvals.Gate.Decide | crates/dagos/src/approvals.rs:183-257 | a decision, with any other decisions and answers in between: its verdict has a cause, and its call is then on neither list |
| Approvals.Gate.Answer | crates/dagos/src/approvals.rs:126-133 | the sender is taken under the lock and sent to after it, with anything in between; true only if the wait that was pending for the call then has the reply |
| Approvals.AlwaysInv | crates/dagos/src/approvals.rs:126-158 | what every interleaving keeps of decisions, senders taken, replies sent, timeouts and drops |
| Approvals.PendingIsNoted | crates/dagos/src/approvals.rs:236-243 | every pending call has its note |
| Approvals.AllowedWithCause | crates/dagos/src/approvals.rs:183-257 | a person allows only through an answer told it reached that wait, and never a tool that is off; policy allows only when all allow and nothing is of concern |
| Approvals.AnswersOnce | crates/dagos/src/approvals.rs:126-133 | of all the answers to a wait at most one is told it succeeded, and its reply is what the wait got |
| Approvals.LateAnswer | crates/dagos/src/approvals.rs:126-133 | an answer whose wait times out after its sender was taken is told it failed |
| Approvals.NothingLeftBehind | crates/dagos/src/approvals.rs:147-158 | a call is listed only while its own wait is under way |

## Left out

- SQLite, SQL, migrations and serialisation: tables are maps, sets and sequences, the recursive query is the growing set of `Storage.Store.Reaches`, and a transaction is a saved copy of the tables, kept or restored.
- JSON Schema and JSON parsing of provider and Jev output: typed documents are taken as input; what is validated beyond the schema is modelled.
- Ids, clocks and payloads: ids and instants are parameters, an id already taken is refused; payloads are opaque except user turns and lint findings, and node payload updates, which the runtime never makes, are not modelled.
- Conversations: titles, archiving, activity and the choice of the latest or a new conversation; a run names its conversation.
- Event rows: event ids and instants, provider, model and system prompt fields, probabilities and judged counts, and the filtering of reads by event type.
- Rows ordered by creation: edges keep insertion order where the store orders by instant and id; context rows keep no ordering column, their order being that of `Ranked`.
- Storage.Store.ReplaceContext: does not model the rows' order, because the order is derived from the nodes whenever it is read.
- Storage.Store.StartRun: does not model choosing or creating the conversation in the same transaction; the run names one that exists or is refused.
- Compilation.CompileWith: does not model the system prompt or the validation of the compiled IR against its contract; `Pipelines.Pipeline.CompileIr` fails arbitrarily in its place.
- Pipelines.Pipeline.Execute: does not model how relevance scores, the results no longer relevant, the model's window, classifications, replies and tool outputs come about; they are an arbitrary world. That a run with no cause to fail completes is not claimed beyond this: every failure has one.
- Pipelines.Pipeline.FinishRun: a stop is possible wherever the code waits, but its being signalled is not modelled; the fallback's two events are one transaction on the store and two steps of its history.
- Fitting.CompileIr: does not model the contract check of the compiled IR or how large an IR is; the size is an arbitrary function.
- Turns.RecallCandidates: does not model how a turn is told as text or the trimmed copy Jev judges; the text is an arbitrary function of the turn's events.
- Prose.ProseExtractor.Push: for texts that are not well-formed JSON (lone surrogates, bad escapes) the machine is modelled but nothing is claimed about what it decodes; a high surrogate left pending survives ordinary characters.
- Masking.Mask: which characters are alphanumeric is an arbitrary predicate.
- Sources.MasksExactly: what the scan misreads, as listed above, is no piece of a source: Rust's byte and C raw strings, nested comments and escaped-quote literals; a Python text between three quotes with an escaped quote right before its end; JavaScript's regular expressions; and JavaScript's templates and Python's f-strings whose expressions hold their own quote.
- Scanning.PythonFunctions: whitespace is that of ASCII, the text being bytes; where header patterns match is an input.
- Extending a function's span up over its doc comments: it may reach into the function before, so disjointness is claimed for the spans before it.
- Batching.Reassemble: does not model a request that fails, which fails the whole search.
- Approvals.DecideAlone: does not model how the guard assesses a call or how named tools are found in its arguments; both are inputs. Waits have distinct keys, which call ids guarantee; two waits sharing a key are not modelled.
- HTTP, MCP sessions, subprocesses, file scanning, keys, provider configuration, the command line, the server's routing and its stop requests before a run registers its signal.
- Failing interrupted runs at startup: each is a `Fail` step of `Histories`, so nothing is added for it.
- The browser's JavaScript, the judgment cache of the lint crate, native tool-call accumulation, SSE splitting, closed enumerations and id parsing.
