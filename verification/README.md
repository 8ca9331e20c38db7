# Jev-Grep scoped exact search: a Dafny model

Jev-Grep searches a registered workspace for exact matches and reads back what it found. A native worker walks a
pinned root, decides by globs and ignore files what it may read, captures each file at one revision, matches it and
builds evidence. A client runs the worker as a child process over length-prefixed frames. A service maps codes, mints
evidence ids, trims to a byte budget and checks the result. A registry owns roots, workers and policies. The claims
worth making cross these pieces, so this project models them as one stack and proves properties of the whole.

To verify: `dafny verify dfyconfig.toml`.

## Layers

| files | what they hold |
|---|---|
| `Basics`, `Utf8`, `Scalars`, `Paths`, `Wire`, `Ordered` | bytes, UTF-8 by RFC 3629, relative paths and the schema's expression, big-endian headers, ordered lists |
| `Protocol`, `Evidence`, `Contracts` | the private worker protocol, the evidence contract, the public requests and responses, and the checks on each |
| `Capture`, `Scope`, `Search` | the file system as an oracle per operation; capture, the ignore engine and the walk, as specification functions and as classes proved equal to them |
| `SearchInvariants`, `Conservation`, `Responses`, `Acceptance`, `ScopeInvariants`, `Verdicts`, `Eligible`, `Causes`, `Promptness`, `PolicyLimits`, `PolicyOverrun`, `Snapshot`, `Duplicates` | what holds in any file system: candour and causes, deadlines, counts, byte accounting, names and verdicts, budgets, the snapshot |
| `Trees`, `Refinement`, `Findings`, `Completeness`, `ReadAgreement`, `Reads`, `FaultyReads` | a static tree, what a search of it should find, and the proofs that search and read do that |
| `Client`, `ClientSafety`, `ClientRuns`, `ClientCauses`, `Worker`, `Lockstep`, `Requests` | the client state machine with its frame decoder, its invariant over all runs, the cause of every settlement, the worker's session, the two in lockstep, and what becomes of the requests sent |
| `Service`, `ServiceProofs`, `ServiceAnswers`, `Policy` | mapping, coverage, trimming, what callers are told, and narrowing |
| `Checks`, `Boundary`, `Limits` | what the receiving sides insist on, the public contract, and every number and spelling both sides rely on |
| `Registry`, `RegistryProofs`, `RegistryCalls`, `Registrations`, `Authority`, `Serving` | registrations in flight, ownership, pinned identity, what becomes of calls, what a registration's input comes to, confinement to its policy, and the service over runs of the registry |

## How it is modelled

* **File system.** Every system call is numbered. A `World` says, for each number, whether the deadline has passed,
  whether the call fails, and what paths, inodes and listings are at that moment, so writers may act between any two
  calls. Theorems about candour, evidence, deadlines, budgets and acceptance hold for every such world. That captured
  bytes are one revision assumes of writers that a change of content shows in the size or a time, and that no earlier
  combination of those returns (`Honest`). Theorems that compare with a tree assume the world shows that tree throughout;
  failures and deadlines may still strike anywhere, except where a statement says that nothing fails.
* **Libraries.** Regular expressions, globs, ignore-file lines, SHA-256 and the size of a serialized hit are
  uninterpreted functions of an `Engine`; the only assumptions are that reported matches lie within the text and that
  digests have 32 bytes. JSON text appears only through what it does: messages have additive sizes (`Sized`), the client
  reads back what the worker wrote and checks it (`Faithful`, `Checking`), and where the service runs over the registry, what is
  accepted as a reply is the outcome of some search for the outstanding request (`Attended`; `WorkersAreHonest` shows
  that the modelled worker's answers are).
* **Imperative parts.** Objects that the source updates in place are classes with those fields, and loops are loops.
  Each method is proved to leave exactly the state a specification function gives; the theorems are about those
  functions. Table rows about such methods begin with "Glue": they tie a method to the function that the other rows
  speak about. Runs are sequences of events that the platform may raise; a legal event is an armed timer, a registered
  listener, a settled promise, or a process event in process order.
* **Spelled out.** What specification and code both rest on is stated once more from the literal values: `Boundary`,
  `Checks`, `Eligible`, `Findings`, `Limits`, `Scalars`, `ServiceAnswers` and `Registrations` say, without naming the
  functions they are about, which requests, paths, rules, files, hits, issues and terms those functions let through.
* **Client and registry.** A process, timer, listener, promise and write is a record in the client's `Host`; the
  registry holds its workers as client states, so that its theorems speak about the client's own runs.

## Where the code and its documentation differ

* The decision record bounds ignore observations by 4,096. The code checks the bound before a directory's two records
  and keeps walking when a `.ignore` cannot be read after its `.gitignore` was recorded, so 4,097 is reachable. The
  model follows the code: `PolicyBudget` proves 4,097, `BoundIsPassed` gives a run, `EnterPassesBound` says exactly
  when entering one directory passes the bound and `WalkPassesBound` that a walk passes it exactly there;
  `DependableWithinBound` says what a file system must be like for the bound to hold.
* The public path schema's look-ahead uses a dot that does not cross U+2028 and U+2029, so it overlooks some dot
  segments that the worker refuses. `ValidPathMeetsSchema` states the exact difference, `SchemaOverlooks` shows such a
  path and `OverlookedReadIsRefused` the read that the client sends and the worker refuses.
* The prototype's record says that both sides cap frames. The client caps what it receives and not what it sends:
  `ServedIffItFits` says exactly which requests the worker answers, `CalmRequestsFit` that accepted requests without
  control characters are among them, and `AcceptedRequestTooLong` that not all accepted requests are.
* The service reports complete coverage whenever no reason has a public counterpart. That is right only because of
  which codes the worker reports: `CoverageSurvives` and `CoverageLost` state the dependence, `SuccessIsTruthful`
  and `ExactFinishes` discharge it.

## Model

| member | source | states |
|---|---|---|
| Capture.Run | native/worker/src/main.rs:185-233 | Glue: The capture, with its read loop, returns exactly what the specification says, for every schedule of failures, deadlines and writers. |
| Capture.ReadsBounded | native/worker/src/main.rs:211-224 | Every read of the loop asks for at least one byte, at most a chunk, and none beyond the byte after the limit; reads follow one another without gaps; one that gets nothing is the last and found the end of the file, and what is returned ends there. |
| Capture.InspectionsAgree | native/worker/src/main.rs:139-157 | When a capture delivers bytes, its three inspections showed one regular file within the limit, equal in device, inode, size and both times to the nanosecond. |
| Capture.UndisturbedCapture | native/worker/src/main.rs:185-233 | With no deadline and no failure a capture is exactly: declined for another kind or size; SOURCE_MUTATED when any of those fields differs at the reopening or the end, or too much was read; and otherwise the bytes if they are NUL-free UTF-8. |
| Capture.SingleRevision | native/worker/src/main.rs:185-233 | If a change of content changes the size or a time, and no earlier combination of those returns, captured bytes are the whole content of one regular file, unchanged from the first inspection to the last, within the limit, NUL-free and valid UTF-8. |
| Capture.CaptureShape | native/worker/src/main.rs:185-233 | Without any assumption on writers, a capture gives bounded text, declines, or reports one of three faults. |
| Capture.CaptureOfStatic | native/worker/src/main.rs:185-233 | On an unchanging file a capture gives the content exactly when it is bounded text, or a fault. |
| Capture.CaptureOfFrozen | native/worker/src/main.rs:185-233 | With no failure and no deadline that outcome is certain. |
| Scalars.ValidExactly | native/worker/src/main.rs:229 | Text passes as UTF-8 exactly when it encodes some Unicode scalar values, by the table of section 3 of RFC 3629. |
| Utf8.BoundaryTestIsExact | src/contracts/validation.ts:125-128 | On valid UTF-8 (sections 3 and 4 of RFC 3629) the one-octet test accepts exactly the offsets that decoding from the start reaches. |
| Utf8.MaskIsNotContinuation | src/contracts/validation.ts:127 | The masked comparison fails exactly for the octets 0x80 to 0xBF, as the one-octet test says. |
| Utf8.SliceValid | native/worker/src/main.rs:464-479 | A slice between two offsets that pass the test is valid UTF-8. |
| Utf8.StepBackAtMostThree | native/worker/src/main.rs:464-467 | Stepping back to a boundary takes at most three steps. |
| Paths.ValidPathMeetsSchema | src/contracts/schemas.ts:14-15 | A path passes the worker exactly when it passes the schema, has no dot segment the schema's look-ahead overlooks, and is at most 4096 octets. |
| Boundary.SchemaExactly | src/contracts/schemas.ts:14-15 | The schema takes exactly the paths of 1 to 4096 UTF-16 units without forbidden octets and empty segments in which every dot segment comes after a U+2028 or U+2029. |
| Paths.SplitHasSegment | native/worker/src/main.rs:234-241 | Splitting yields every maximal slash-free stretch of a path. |
| Paths.SplitOnlySegments | native/worker/src/main.rs:234-241 | Splitting yields nothing else. |
| Paths.ParentOfChild | native/worker/src/scope.rs:171-187 | Taking the text before the last slash undoes joining a name to a directory. |
| Paths.RelevantChildUnique | native/worker/src/main.rs:333-338 | At most one entry name of a directory leads to a given read target. |
| Eligible.NothingBarredIsReached | native/worker/src/scope.rs:109-112 | In any file system, the path of everything a walk judges, and so walks or searches, and of every hit, has at most 4096 octets and no forbidden one, no empty or dot segment, none that is `.git` or `.jev-grep`, and unless hidden names are wanted none that begins with a dot. |
| Eligible.OnlyBarredIsPassedOver | native/worker/src/main.rs:310-338 | And an entry that comes up in time and below the limit is excluded for its name only for that or for not being UTF-8; in a read, it is passed over when it is neither the path asked for nor above it. |
| Scoping.Scope.constructor | native/worker/src/scope.rs:90-108 | Glue: A new scope has loaded and recorded nothing. |
| Scoping.Scope.AddAll | native/worker/src/scope.rs:133-147 | Glue: The line loop counts, refuses and stops as specified, updating only the line count. |
| Scoping.Scope.Load | native/worker/src/scope.rs:122-151 | Glue: Loading one ignore file leaves exactly the specified bytes, lines and record, on every branch. |
| Scoping.Scope.Enter | native/worker/src/scope.rs:113-154 | Glue: Entering a directory leaves exactly the specified state, with rules only when both files were loaded. |
| Scoping.Scope.Find | native/worker/src/scope.rs:170-188 | Glue: The parent loop finds the nearest deciding rules of one kind. |
| Scoping.Scope.Allows | native/worker/src/scope.rs:155-190 | Glue: The verdict equals the specification over the loaded rules. |
| Scoping.Scope.Verify | native/worker/src/scope.rs:210-217 | Glue: Re-reading in record order gives the specified outcome. |
| Scoping.Scope.SnapshotHash | native/worker/src/scope.rs:191-209 | Glue: The hash is of exactly the specified bytes. |
| Findings.VerdictExactly | docs/adr/0003-scoped-exact-core.md:13-15 | A path is admitted exactly when no exclude matches, a file matches each non-empty include group, the deepest `.ignore` that says anything does not ignore it, and, when none does, neither does the deepest such `.gitignore`. |
| Findings.FolderOffers | native/worker/src/main.rs:301-373 | A tree's plan holds exactly the files that some trail of entries offers: each followed name reachable and admitted, each directory's ignore files absent or text of at most 65536 octets whose lines build, and the file itself text within the limit. |
| Refinement.VerdictIsPure | native/worker/src/scope.rs:170-188 | When the loaded rules agree with the chain of ancestor directories, the verdict equals a pure function of the tree. |
| Refinement.EnterMirrors | native/worker/src/scope.rs:113-154 | Entering a static directory either fails or loads exactly the rules its ignore files declare. |
| Refinement.EntriesRefine | native/worker/src/main.rs:309-371 | At every entry of a walked directory that agreement holds, and what the walk adds refines what the tree plans. |
| Verdicts.AdmittedByVerdict | native/worker/src/main.rs:339-371 | An entry is walked or searched only on an affirmative verdict asked for at that point; an entry judged and not admitted is excluded, and if the verdict was affirmative it is a special file. |
| Verdicts.AncestorsLoaded | docs/adr/0003-scoped-exact-core.md:19 | In any file system with slash-free names: wherever a walk asks for a verdict under ignore files, the rules of the root and of every directory above the path are loaded. |
| Verdicts.WalkGuarded | native/worker/src/main.rs:339-371 | In any file system with slash-free names: every verdict a walk asks for comes after an affirmative verdict on each directory between the root and its path. |
| Verdicts.HitsLieInScope | docs/adr/0003-scoped-exact-core.md:19 | In any such file system: the file of every hit was judged affirmatively when the walk came to it, after every directory above it had been, so nothing is reported from below a pruned directory. |
| Verdicts.SiblingVerdictStands | native/worker/src/scope.rs:152-190 | In any file system: walking other entries of a directory, with everything below them, never changes a verdict on an earlier entry or on anything below it. |
| Verdicts.VerdictsStand | native/worker/src/scope.rs:152-190 | When listings give each entry once: every verdict a walk asks for is the one it would get at any later verdict of that walk and at its end. |
| ScopeInvariants.PolicyBudget | native/worker/src/scope.rs:117-151 | Whatever is walked, at most 1048576 bytes of ignore text in files of at most 65536 and 4097 records, each path once and in order. |
| ScopeInvariants.PolicyExactly | native/worker/src/scope.rs:51-77 | Reading an ignore file: absent when nothing is there, unreadable when it is no text of at most 65536 octets, POLICY_CHANGED when it changes meanwhile. |
| ScopeInvariants.LoadExactly | native/worker/src/scope.rs:129-151 | One that was read is loaded exactly when the octets so far stay within 1048576 and the lines within 4096 and all its lines build; then both are counted and it is recorded. |
| PolicyLimits.EnterPassesBound | native/worker/src/scope.rs:118-151 | Entering a directory passes the documented 4096 records exactly when it starts from 4095, its `.gitignore` is not recorded yet and loads, and its `.ignore` can be recorded. |
| PolicyLimits.WalkPassesBound | native/worker/src/scope.rs:118-151 | A whole walk, in any file system, ends with more than 4096 records exactly when it enters some directory in that situation. |
| PolicyLimits.DependableWithinBound | docs/adr/0003-scoped-exact-core.md:19 | The documented bound holds after any walk, through any failures that end it, in a file system where every readable `.gitignore` builds and has an absent or usable `.ignore` beside it. |
| PolicyOverrun.BoundIsPassed | native/worker/src/scope.rs:118-151 | A tree of 2048 empty folders with four-letter names, one of them with a special file for `.ignore`: the walk ends normally with 4097 records. |
| Snapshot.RecordRoundTrip | native/worker/src/scope.rs:191-209 | A parser recovers the record, paths and absent or present contents, from the hashed bytes. |
| Snapshot.PreimageInjective | native/worker/src/scope.rs:191-209 | Two records are hashed from the same bytes exactly when they are equal. |
| Limits.PreimageExactly | native/worker/src/scope.rs:194-207 | The hashed bytes are the domain `jev-ignore-snapshot-v1` and NUL, and each record with its lengths in eight octets. |
| Snapshot.CompleteMeansReadAgain | native/worker/src/main.rs:547-549 | Complete coverage means every record, absence included, was read again unchanged after the walk. |
| Snapshot.VerifyCatches | native/worker/src/scope.rs:210-217 | A record that cannot be read again as it was always makes verification fail. |
| Snapshot.SnapshotIsOfRecord | native/worker/src/main.rs:558 | The reported hash is of the record that coverage was judged by. |
| Searching.Search.constructor | native/worker/src/main.rs:511-530 | Glue: A new search has found nothing and reserved 2048 bytes for the envelope. |
| Searching.Search.Issue | native/worker/src/main.rs:295-300 | Glue: A code is added once and coverage becomes partial. |
| Searching.Search.Evidence | native/worker/src/main.rs:464-480 | Glue: The step-back loop builds the specified excerpt. |
| Searching.Search.Match | native/worker/src/main.rs:444-494 | Glue: The match callback adds hits, counts bytes and stops exactly as specified. |
| Searching.Search.SearchFile | native/worker/src/main.rs:374-399 | Glue: Capture with one retry, and what each outcome counts, as specified. |
| Searching.Search.Content | native/worker/src/main.rs:400-443 | Glue: Captured text is counted, read or matched as specified. |
| Searching.Search.Walk | native/worker/src/main.rs:301-309 | Glue: Walking a directory leaves exactly the specified state, for any failures and listings, and terminates. |
| Searching.Search.Entries | native/worker/src/main.rs:309-372 | Glue: The entry loop stops at the first fault. |
| Searching.Search.Entry | native/worker/src/main.rs:310-338 | Glue: Naming tests, entry limit and read filter, as specified. |
| Searching.Search.Node | native/worker/src/main.rs:339-371 | Glue: Resolving, classifying and scoping an entry, as specified. |
| Searching.Run | native/worker/src/main.rs:497-561 | Glue: The whole search returns the specified answer. |
| SearchInvariants.WalkKeeps | native/worker/src/main.rs:301-373 | Through any walk in any file system: counts stay balanced, a withheld coverage has its reason, failures are never silent, and every hit is backed by bytes that a capture during the walk took from the file its path had been resolved to. |
| SearchInvariants.CutVouched | native/worker/src/main.rs:468-480 | A hit cut from captured text at scalar boundaries passes both the client's check and the evidence verifier. |
| Conservation.WalkConserves | native/worker/src/main.rs:301-373 | Through any walk in any file system, whatever its fault: entries visited equal those searched, excluded, failed or walked as directories, but for one file that a deadline may interrupt. |
| Conservation.EveryVisitAccounted | native/worker/src/main.rs:531-560 | The same for every successful search, in any file system: on a complete one, `visited` equals searched plus excluded plus subdirectories walked. |
| Causes.SearchExplains | native/worker/src/main.rs:301-561 | In any file system: every reason of a success and every error has its cause in what happened: an expired deadline, a failed call, a vanished entry, an unusable ignore file, a file changed during its capture, a limit reached, or a text, match or revision that was seen. |
| Causes.RefusedFirst | native/worker/src/main.rs:497-534 | Before anything is read a request is refused, in this order, by its check, for its pattern, and for its scope; one that validates its scope alone is then answered complete and empty, whatever the file system holds. |
| Promptness.SearchEndsPromptly | native/worker/src/main.rs:301-307 | In any file system: a walk, however much is left of it, is over within four operations of the deadline, and the check of the ignore files after it within one more. |
| Promptness.NothingAfterDeadline | native/worker/src/main.rs:185-223 | Whatever begins after the deadline, be it a directory, an entry, a capture, an ignore file or the matching of a text, ends at its first step as DEADLINE. |
| Causes.EntriesPassedOver | native/worker/src/main.rs:339-371 | What cannot be resolved or inspected is counted as failed and reported, and the walk goes on; special files are excluded. |
| Causes.DirectoriesPassedOver | native/worker/src/main.rs:361-367 | So is a directory that cannot be read; any other fault inside one ends the walk. |
| Causes.FilesPassedOver | native/worker/src/main.rs:374-399 | A file that changed is captured once more through what its path leads to by then; one that cannot be captured is counted, reported and passed over, and out of time the walk ends. |
| Causes.FaultsAnswered | native/worker/src/main.rs:531-546 | A fault that ends the walk is the answer of a read, of a failed matcher, and of a search that ran out of time with nothing found; otherwise it is a reason of a partial answer that keeps all hits. |
| Causes.WalksConcluded | native/worker/src/main.rs:547-560 | Otherwise what fails when ignore files are verified is one more reason; a read fails with its first reason, or OUT_OF_SCOPE when it found nothing. |
| Responses.SuccessIsTruthful | native/worker/src/main.rs:531-560 | Every success: complete exactly when there are no reasons and then no failures; `searched + excluded + failed <= visited + 1`, `visited <= maxEntries`; and only the eight codes with a public counterpart as reasons. |
| Responses.EnvelopeFits | native/worker/src/main.rs:516 | The 2048-byte reserve covers every envelope the worker can build. |
| Responses.FailureFits | native/worker/src/main.rs:627-635 | A failure fits the smallest budget, whatever escaping its id needs. |
| Acceptance.WalkReadsOnce | native/worker/src/main.rs:333-338 | When no listing repeats a name on its path, a read meets its target at most once. |
| Acceptance.SuccessPassesIff | src/worker/protocol.ts:47-64 | In any file system, a success passes the client's check exactly when it holds no more matches than asked for and its size fits the budget: nothing else of the check can fail, and of a search not the number of matches either. |
| Acceptance.SuccessPassesClient | src/worker/protocol.ts:47-64 | For every request and file system, every success passes the client's whole check at its serialized size, which fits the frame cap; a read, when no listing repeats a name on its path. |
| Checks.AnswersAreChecked | src/worker/protocol.ts:47-64 | If frames pass for answers only after the client's check: in any run, every success delivered answers the request outstanding for it, by id, within its byte, match, entry and file limits, with distinct reasons, complete exactly when there are none, and hits whose excerpts are as long as they say. |
| Duplicates.ReadExceedsBudget | native/worker/src/main.rs:432-437 | A directory that lists a 2000-byte file twice makes a read of it report two hits and exceed its budget, at their serialized sizes. |
| FaultyReads.ReadAcceptedIff | native/worker/src/main.rs:432-437 | A successful read of a static tree reports one hit, repeated for every entry that leads to its path; the client accepts it exactly when that many were asked for and their serialized sizes with the envelope fit the budget, so always when one entry leads there. |
| Refinement.SearchRefines | native/worker/src/main.rs:301-561 | On a static tree, complete means exactly the tree's qualifying matches in traversal order, with `visited` equal to searched plus excluded plus folders walked; otherwise a subsequence, and a prefix unless a reason is a failed read, a mutation or the depth limit. |
| Findings.FindingsExactly | native/worker/src/main.rs:374-495 | On a static tree a search reports only findings, and when complete exactly those: matches the matcher reports in offered files, but for an empty one after a final line feed, quoted from their start up to the last scalar boundary within 4096 octets. |
| Findings.DigestExactly | native/worker/src/main.rs:403-408 | Digests are the hash in lower-case hexadecimal. |
| Completeness.SearchCompletes | native/worker/src/main.rs:301-561 | When nothing fails or changes and the tree's needs fit the limits, the search is complete. |
| Completeness.EnterGoes | native/worker/src/scope.rs:113-154 | Usable ignore files within the budgets are always loaded, at exactly their cost. |
| ReadAgreement.SimWalk | native/worker/src/main.rs:301-373 | A read walking beside a clean search of the same directory stays within what the search used, and meets exactly the planned file. |
| Reads.HitsAreGenuine | src/contracts/validation.ts:112-133 | Every hit of every success, in any file system, is about bytes that a capture during that search took from the file its path had just been resolved to, is a match the matcher reported (or the range asked for), and is accepted by the evidence verifier on those bytes; its excerpt is cut exactly when the match exceeds 4096 bytes, to 4093 to 4096. |
| Reads.HitsQuoteOneRevision | native/worker/src/main.rs:185-233 | With honest writers, those bytes were the whole of a regular file at one moment of the search, after the hit's path had been resolved to that file. |
| Checks.EvidenceExactly | src/contracts/validation.ts:112-133 | The evidence verifier accepts exactly: text of at most 16 MiB with the evidence's digest, both ranges in it on scalar boundaries, the excerpt its text there, at most 4096 octets, called truncated exactly when it does not cover the range. |
| FaultyReads.ReadHitsArePlanned | native/worker/src/main.rs:409-438 | A read that succeeds on a static tree, whatever failed meanwhile, delivers exactly the requested range of a file the tree offers at that path, untruncated, of the expected revision. |
| FaultyReads.ReadsAnswerOrSayWhy | native/worker/src/main.rs:409-438 | Such a read answers for the one content offered at that path, once for each entry leading there, as it must; or reports a deadline, failed read, mutation, changed policy or limit: nothing else, and never OUT_OF_SCOPE of a file in scope. |
| FaultyReads.ReadsBesideSearch | native/worker/src/main.rs:409-438 | A read under the terms of a complete search, in a file system of its own showing the same tree, answers OUT_OF_SCOPE exactly for paths the search did not cover, and otherwise the passage, or the mismatch, range or budget fault that applies; interference is reported only where something fails, changes or is listed twice. |
| Reads.HitsReadBack | native/worker/src/main.rs:550-557 | An untruncated hit of a complete search reads back as the same hit. |
| Reads.TruncatedHitsRefused | native/worker/src/main.rs:269-271 | Reading back a truncated hit is refused with BYTE_LIMIT. |
| Client.NativeWorker.constructor | src/worker/client.ts:31-34 | Glue: A new client holds nothing but the expected identity. |
| Client.NativeWorker.Open | src/worker/client.ts:36-45 | Glue: Every branch of opening leaves the specified state. |
| Client.NativeWorker.Search | src/worker/client.ts:48-74 | Glue: Every branch of searching, the check of the request included, leaves the specified state. |
| Client.NativeWorker.Start | src/worker/client.ts:75-78 | Glue: Starting replaces the child and empties the buffer. |
| Client.NativeWorker.Send | src/worker/client.ts:116-125 | Glue: Sending writes the outstanding request with what is left of its deadline, or fails when nothing is. |
| Client.NativeWorker.Fail | src/worker/client.ts:126-138 | Glue: Failing retires a running child and rejects whoever waits. |
| Client.NativeWorker.Greet | src/worker/client.ts:95-103 | Glue: A greeting is refused, or accepted and its root pinned, as specified. |
| Client.NativeWorker.Receive | src/worker/client.ts:104-111 | Glue: A reply is refused, late and so rejected, or resolves the outstanding promise. |
| Client.NativeWorker.Data | src/worker/client.ts:83-114 | Glue: The decoder loop consumes exactly the whole frames buffered. |
| Client.NativeWorker.Closed | src/worker/client.ts:82-82 | Glue: A close fails the current child and ends a retirement. |
| Client.NativeWorker.Close | src/worker/client.ts:139 | Glue: Closing disposes the client for good. |
| ClientSafety.StepKeeps | src/worker/client.ts:36-139 | Every event the platform can raise keeps the safety invariant, and replies are delivered only from the process that was current. |
| ClientSafety.StartKeeps | src/worker/client.ts:75-78 | A process is started only when none is alive, so none is ever abandoned. |
| ClientSafety.DataKeeps | src/worker/client.ts:83-114 | A chunk from any process but the current one changes nothing. |
| ClientRuns.EveryRun | src/worker/client.ts:36-139 | After any run: at most one live process; never an opener and a request together; a child that has not greeted has someone waiting; every promise settled exactly once or waiting with its own timer armed; no timer or listener of a settled promise; a bounded buffer; replies only from processes with the pinned root identity. |
| ClientCauses.EverySettlementHasItsCause | src/worker/client.ts:36-139 | In any run, every settlement was made by an event that gives its cause: a reply by data of the current child that was not late and answers the request outstanding; a rejection by the timer, the abort, the end of the child, closing, a late reply, a spent deadline, another root, a protocol violation, or a call out of turn, each with its own fault. |
| ClientCauses.EndsOfWaiting | src/worker/client.ts:126-139 | And each of those that ends waiting rejects all who wait with its fault, leaves no child, and retires one that still runs. |
| ClientRuns.EachRequestWrittenOnce | src/worker/client.ts:116-125 | Requests are written in order, each at most once, and the outstanding one to the ready child. |
| ClientRuns.WaitingEnds | src/worker/client.ts:41-45 | A waiting promise always has a timer that may fire, and then it is rejected. |
| ClientRuns.RetirementEnds | src/worker/client.ts:129-133 | A retirement has exactly one dying process, whose close ends it. |
| ClientRuns.ChunksIrrelevant | src/worker/client.ts:83-114 | However bytes are cut into chunks, the effect is that of one chunk. |
| ClientRuns.FrameRecovered | src/worker/client.ts:86-94 | Any cutting of one frame of any legal size makes the client handle exactly that frame. |
| Wire.HeaderRoundTrip | native/worker/src/main.rs:567 | A big-endian length read off the front of a stream is the length written. |
| Wire.MostSignificantFirst | src/worker/client.ts:121-124 | Headers and lengths are written with the most significant octet first. |
| WorkerLoop.Serve | native/worker/src/main.rs:571-637 | Glue: The session, ready frame and request loop, produces the specified output and ending. |
| WorkerLoop.AnswerExactly | native/worker/src/main.rs:609-637 | Each request is answered by its own search, a failure under its id, and unparsable input under the id `invalid`. |
| WorkerLoop.AnswersFit | native/worker/src/main.rs:562-566 | Every answer, success or failure, is a non-empty frame within the cap; to a read, when no listing repeats a name on its path. |
| WorkerLoop.OneAnswerEach | native/worker/src/main.rs:597-637 | Any stream of request frames is answered frame for frame, in order, up to the first whose size, or whose answer's, is not legal: there the worker fails, and with none it ends cleanly. |
| WorkerLoop.ListedServed | native/worker/src/main.rs:597-637 | With legal sizes there is none, if no listing repeats a name on a read's path. |
| WorkerLoop.AnswerReachesCaller | src/worker/client.ts:104-111 | However an answer is cut into chunks, success or failure, the caller's promise is resolved with exactly what the worker's search returned, if the client's check accepts it in time; late, it is rejected for its deadline and the child retired; unacceptable, for the protocol. |
| WorkerLoop.ListedDelivers | src/worker/protocol.ts:47-64 | It always accepts it, to a read when no listing repeats a name on its path. |
| Lockstep.RoundTrip | src/worker/client.ts:48-125 | An idle client that is asked writes the request at once, and when the worker has served it the promise is settled with that search's outcome, and the client is idle again. |
| Lockstep.OpensWaiting | src/worker/client.ts:36-45 | A new client that is opened waits for the greeting of its first process, where such a session starts. |
| Lockstep.SessionRuns | src/worker/client.ts:83-125 | From the greeting on, however frames are cut: the opening resolves, every request is written once and in order, its promise is settled with the outcome of the worker's search for exactly that request, and the bytes the client read are the bytes the worker writes for that input. |
| Requests.WorkerRefusal | native/worker/src/main.rs:242-284 | A request the client accepts is within the worker's bounds, and its check refuses it exactly for what is left to the worker: a dot segment the schema overlooks or a path too long in bytes, a disordered or too distant range, too long a range, or a declined regex. |
| Requests.WrittenRequestsMeetWorker | src/worker/client.ts:53-61 | Every request written in any run passed the client's check, is within the worker's bounds, and is refused by the worker's check exactly for those causes. |
| Limits.ValidateExactly | native/worker/src/main.rs:242-284 | What the worker's check says of any request, in its order, every bound and spelling written out. |
| Limits.ScopeExactly | native/worker/src/scope.rs:23-48 | The worker takes a scope of at most two groups of 64 globs and 128 excludes, each of at most 1024 octets, relative, not negated, well named, and built by the library. |
| Limits.IdsDiffer | src/worker/client.ts:60 | Requests of one client never share an id. |
| Requests.SchemaOverlooks | src/contracts/schemas.ts:14-15 | A path of nine octets with a dot segment behind U+2028 that the schema accepts and the worker refuses. |
| Requests.OverlookedReadIsRefused | native/worker/src/main.rs:262-268 | A read of that path passes the client's check and is refused by the worker with INVALID_REQUEST. |
| Requests.ServedIffItFits | native/worker/src/main.rs:602-607 | The worker answers a request exactly when its serialized size and its answer's are within the frame cap, and otherwise ends without an answer; the answer's always is, to a read when no listing repeats a name on its path. |
| Requests.CalmRequestsFit | docs/adr/0002-persistent-worker-prototype.md:5 | A request the client accepts fits the frame cap when no text in it holds a control character. |
| Limits.RequestTemplate | src/worker/client.ts:121 | The fixed part of a request's size is that of its keys and punctuation; likewise for the worker's messages. |
| Requests.AcceptedRequestTooLong | src/worker/client.ts:121-124 | A request that the client accepts and whose frame is over the cap. |
| Service.Cut | src/service/exact.ts:97-106 | Glue: The binary-search loop computes the specified cut, or none when the deadline passes. |
| Service.ExactService.Execute | src/service/exact.ts:56-121 | Glue: Every branch of execution returns the specified response. |
| ServiceProofs.CutIsLongest | src/service/exact.ts:97-106 | A prefix fits exactly when it is no longer than a non-empty cut; an empty cut means that no non-empty prefix fits. |
| ServiceAnswers.EarlyEnds | src/service/exact.ts:56-85 | Each way for an execution to end early, in order, and its error: the public code of every worker, client and registry error, its stage and its next action, under the request's id or `invalid`. |
| ServiceAnswers.AnswerTells | src/service/exact.ts:86-107 | An answered search gives each partial reason, and each issue, exactly for the worker's codes it stands for, and the limit's also when it was trimmed. |
| ServiceAnswers.PassageTells | src/service/exact.ts:86-111 | So do the issues that come with a passage. |
| ServiceAnswers.EmptyReads | src/service/exact.ts:108-109 | A read for which the worker found nothing is answered READ_FAILED. |
| ServiceAnswers.AnswerPresents | src/service/exact.ts:29-47 | An answer holds the worker's hits in order, each identified by workspace, policy, path, revision and range, and reports the ids, fingerprints, scope and terms the registry gave. |
| Boundary.RequestExactly | src/contracts/validation.ts:26-47 | Which public requests are taken: exactly those whose ids, patterns, text, path, range and numbers keep within the bounds and spellings written out there. |
| Boundary.ContractExactly | src/contracts/validation.ts:56-110 | What a caller may rely on in any response that passes the contract, and what suffices to pass it: its size, ids, digests, coverage and the grounds for it, matches, and evidence that quotes the path, range and revision asked for. |
| ServiceProofs.MarkingGrows | src/service/exact.ts:94-96 | Marking a response as trimmed never makes it smaller. |
| ServiceProofs.EveryResponseFits | src/service/exact.ts:66-116 | Every answer to an accepted request, success or error, meets the response contract and both the caller's byte budget and the deployment's; no success comes once the deadline of either has passed. |
| ServiceProofs.RefusalFits | src/service/exact.ts:60-65 | Unparsable input gets an error with an acceptable id within 2048 bytes. |
| ServiceProofs.UniqueGrows | src/service/exact.ts:86-92 | Issues and reasons are listed once each, in the order in which the worker first gave them. |
| ServiceProofs.CoverageRule | src/service/exact.ts:86-92 | The service reports complete exactly when no reason has a partial reason. |
| ServiceProofs.CoverageSurvives | src/service/exact.ts:25-28 | On any result the client accepts, coverage survives exactly when it is complete or some reason has a public counterpart. |
| ServiceProofs.CoverageLost | src/service/exact.ts:12-28 | To any request, a partial result the client accepts whose coverage the service would report as complete. |
| ServiceProofs.ExactMeetsContract | src/contracts/validation.ts:56-83 | An exact answer of the worker, trimmed or not, satisfies every invariant of the response check. |
| ServiceProofs.ExactFinishes | src/service/exact.ts:86-116 | For an answer of the worker: complete exactly when the worker was and nothing was trimmed; a trimmed answer is the longest prefix that fits; no answer is given only when not even an empty one fits, as BYTE_LIMIT, or when a deadline has passed, as DEADLINE; never UNAVAILABLE. |
| ServiceProofs.ReadFinishes | src/contracts/validation.ts:102-108 | A read answered by the worker is BYTE_LIMIT exactly when the passage does not fit, DEADLINE exactly when it fits too late, and otherwise exactly the passage asked for. |
| ServiceProofs.EvidenceReadsBack | docs/adr/0003-scoped-exact-core.md:25 | An exact hit and a read of the same range and revision share the evidence item, id included. |
| Policies.CanonicalIsSet | src/workspace/policy.ts:19 | Two canonical lists are equal exactly when they list the same set. |
| Limits.CanonicalSorted | src/workspace/policy.ts:19 | And are sorted lexicographically. |
| Limits.PolicyExactly | src/workspace/policy.ts:5-11 | A policy is created exactly from two lists of at most 64 valid, relative, well-named patterns and a size limit of at most 16 MiB. |
| Policies.SpellingIrrelevant | src/workspace/policy.ts:19-37 | Order and repetition of patterns change neither a policy nor a narrowed scope. |
| Policies.NarrowedScopeAcceptable | src/workspace/policy.ts:29-37 | The worker accepts a narrowed scope exactly when every pattern compiles: the united sizes always fit. |
| Policies.NarrowingIsExact | docs/adr/0003-scoped-exact-core.md:13 | Over any tree, narrowing keeps exactly those files the policy alone admits and the narrowing spares together with every directory above them. |
| Registry.WorkspaceRegistry.constructor | src/workspace/registry.ts:28-31 | Glue: A new registry is empty and open. |
| Registry.WorkspaceRegistry.Register | src/workspace/registry.ts:32-42 | Glue: The part of registration before its first await. |
| Registry.WorkspaceRegistry.ResumeResolved | src/workspace/registry.ts:42-43 | Glue: Going on after the path is resolved. |
| Registry.WorkspaceRegistry.ResumeLeased | src/workspace/registry.ts:43-44 | Glue: Going on after the root is opened. |
| Registry.WorkspaceRegistry.ResumeInspected | src/workspace/registry.ts:44-48 | Glue: The identity read from the lease is pinned into a new worker. |
| Registry.WorkspaceRegistry.ResumeGreeted | src/workspace/registry.ts:48-52 | Glue: The worker is asked to validate the unnarrowed scope. |
| Registry.WorkspaceRegistry.FinishRegister | src/workspace/registry.ts:53-57 | Glue: The one step where an entry appears, unless closed meanwhile. |
| Registry.WorkspaceRegistry.Unwind | src/workspace/registry.ts:58-60 | Glue: The catch block closes the worker and the lease. |
| Registry.WorkspaceRegistry.Search | src/workspace/registry.ts:65-78 | Glue: A search by ids is refused in source order, or put to the entry's worker under its narrowed policy; either is recorded, the latter with its request and the promise that answers it. |
| Registry.WorkspaceRegistry.FinishSearch | src/workspace/registry.ts:73-80 | Glue: What the caller gets once the promise is settled: the ids, the policy and its hashes, the scope and the reply, or the error. |
| Registry.WorkspaceRegistry.Unregister | src/workspace/registry.ts:82-86 | Glue: An entry, its worker and its lease end together; an unknown id is refused with OUT_OF_SCOPE. |
| Registry.WorkspaceRegistry.Close | src/workspace/registry.ts:87-91 | Glue: The loop ends every entry's worker and lease. |
| RegistryProofs.StepKeeps | src/workspace/registry.ts:32-91 | Every step of any interleaving keeps the registry orderly. |
| RegistryProofs.EveryRun | src/workspace/registry.ts:32-91 | At every await point: entries and registrations in flight number at most 32; no entry once closed; exactly the held leases and the open workers have an owner, and only one. |
| RegistryProofs.NoEntryAfterClose | src/workspace/registry.ts:87-91 | No entry appears after closing. |
| RegistryProofs.NothingLeaks | src/workspace/registry.ts:58-63 | After any run, once closed with nothing in flight, every worker is closed and every lease released. |
| RegistryProofs.RepliesComeFromPinnedRoot | docs/adr/0003-scoped-exact-core.md:7 | Every reply an entry's worker ever delivers, across restarts, comes from a process with the identity read from the lease at registration. |
| RegistryCalls.NothingIsStuck | src/workspace/registry.ts:42-91 | At every await point: searching, unregistering and closing are always possible, no two entries share a worker or lease, and every registration in flight can go on, or waits for a promise of its worker whose timer is armed. |
| RegistryCalls.CallsAreAnswered | src/workspace/registry.ts:65-81 | After any run, a call put to a worker names a created policy, the workspace's own while registered, and its request lies within it; its promise waits with its timer armed and that request outstanding, or is settled once and for all; a reply answers that request and comes from a process with the pinned root. |
| Serving.QueryPuts | src/service/exact.ts:74-81 | Searching with what the service hands over, under the ids of the request, records a refusal or a call that puts the public request to that workspace. |
| Serving.RegistryAnswers | src/workspace/registry.ts:65-81 | In any run of the registry whose workers answer with searches: what a call for a public request returns is the outcome of a search on that request's own terms, under a created policy and a narrowing of it, with the ids asked for. |
| Serving.WorkersAreHonest | src/worker/client.ts:104-111 | The worker modelled here, when it serves the outstanding request, answers so. |
| Serving.ExecutedOverRegistry | src/service/exact.ts:74-116 | A request executed over any such run: a refusal is shown as its public code; a search is reported complete exactly when the worker completed it and nothing was trimmed, with exactly the worker's reasons, and is trimmed or refused only for size or deadline; a read answers its passage if that fits in time; hits and scope are presented as given. |
| Registrations.RegistrationIsHonoured | src/workspace/registry.ts:49-78 | In any run: whatever the worker of a registration is ever given, and every call put to it, has the registered flags and size limit, a first include group listing exactly the registered includes, and all registered excludes. |
| Registrations.HitsHonourRegistration | docs/adr/0003-scoped-exact-core.md:9 | What such a search or read delivers from a static tree, through any failures, is of a file that some trail offers under the registration's own terms. |
| Registrations.EveryEntryWasValidated | src/workspace/registry.ts:48-56 | In any run, the worker of every entry has answered, with success, a request to validate exactly the scope of the entry's policy. |
| Registrations.UnwindsBecause | src/workspace/registry.ts:42-63 | A registration starts to unwind only where something failed, with the fault of what failed. |
| Registrations.FailsIndeed | src/workspace/registry.ts:32-63 | And wherever one of those things fails, the registration does fail, with that fault. |
| Registrations.EndsBecause | src/workspace/registry.ts:32-64 | It ends in success only once validated in an open registry; refused at once only when closed, malformed or with 32 held, in that order; or with the fault it unwound with. |
| Registrations.CallFailsBecause | src/workspace/registry.ts:65-86 | A call is refused only by a closed registry, as malformed, or for a workspace or policy that is not held, in that order. |
| Registrations.QueryIsAnswered | src/workspace/registry.ts:65-78 | A search is refused exactly for one of those causes, and otherwise put to the worker of the workspace it names, under its policy. |
| Authority.RequestsStayWithinPolicy | docs/adr/0003-scoped-exact-core.md:9 | Whatever an entry's worker is ever given uses the policy's size limit and some narrowing of its scope. |
| Authority.HitsStayWithinPolicy | docs/adr/0003-scoped-exact-core.md:9 | What such a search finds on a static tree lies in files that the registered policy alone admits. |
| Authority.ReadsStayWithinPolicy | docs/adr/0003-scoped-exact-core.md:9 | What such a read delivers from a static tree, whatever failed meanwhile, is the requested range of a file that the registered policy alone admits. |

## Left out

- Acceptance.SuccessPassesClient: for a read, assumes that no listing repeats a name on the read's path, and so do WorkerLoop.AnswersFit, WorkerLoop.ListedServed and WorkerLoop.ListedDelivers, which rest on it; Duplicates.ReadExceedsBudget shows that the claim fails otherwise, Acceptance.SuccessPassesIff says what can fail in any file system, and FaultyReads.ReadAcceptedIff exactly when it does on a static tree.
- PolicyLimits.DependableWithinBound: a sufficient condition on the file system alone; the exact one, PolicyLimits.WalkPassesBound, is about the directories a walk enters.
- Policies.CanonicalIsSet: patterns sort by octets here and by UTF-16 units in the source; only the order of the list differs, never its set.
- Registry.WorkspaceRegistry.ResumeInspected: workers are held as client states rather than as shared objects, so aliasing between a registry and a caller that kept a worker is not captured.
- Regular-expression, glob and ignore-line semantics, SHA-256 and JSON text: libraries, kept uninterpreted.
- System-call flags, `/proc` reopening, clocks and process spawning: oracles or events.
- Discovery, indexing and administration: declared in schemas but produced by no code; a discover request is answered with CAPABILITY_UNAVAILABLE, and the discover branch of the response check is not modelled.
- One-field schema checks that no property here depends on, such as literal versions, strict objects and timestamps; times are numbers, and an issue's message is its code.
- A hit that fails to serialize, which the worker prices at the frame cap: strings always serialize.
- Texts with lone surrogates, which the client accepts in scope patterns: text is valid UTF-8 here.
- The elapsed time of a response, beyond its printed width of at most 24 characters.
