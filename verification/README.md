# Verification of Lexicon's runtime core

This project models the parts of Lexicon that decide what a run may claim: how sessions are recorded and
owned, how a processing run ties its database to its session, how raw transactions are admitted, how JSON
documents with duplicate keys are refused, how a session is handed to a background process, and a few
loops around them. Each part is a module; what it promises is stated in the contracts of the members in
the table below. `dafny verify dfyconfig.toml` checks everything.

| module | models |
|---|---|
| `Calendar` | the UTC text of a 64-bit nanosecond timestamp (RFC 3339) |
| `Utf8` | truncation of a diagnostic at a character boundary (RFC 3629) |
| `JsonGrammar`, `KeyDetector`, `DetectorTheorems` | the recursive-descent duplicate-key detector, against the grammar of RFC 8259 |
| `AcceptedTexts` | exactly which byte strings that detector accepts, well formed or not |
| `Spelling` | what the detector reads, against what a text spells |
| `FlatScanner`, `ScannerTheorems` | the stack scanner for duplicate keys, what exactly it reports, and when it agrees with the detector |
| `SessionModel` | session records, their transitions and their stored documents |
| `SessionStore` | the store, its leases, and the binding of a runtime, one call at a time |
| `StoreProtocol`, `StoreProgress` | the store under any number of processes and crashes: what every run keeps, and what calls achieve |
| `ProcessingRun` | a processing run: the database transaction and the session record together |
| `Discovery` | discovery of raw transactions |
| `Handoff` | the handoff of a session to a background operator host |
| `Cancellation` | the cancellation slot |
| `ProjectRoot` | the search for a project's root and for nested projects |
| `ProfilePath` | the installer's edit of a shell profile and its undoing |
| `ContextPaths` | managed paths, and why a run's context agrees with them |
| `Ordering`, `Wrappers` | orders, sorting and options that the others share |

## How it is modelled

Objects whose methods change them are classes (`JsonKeyDetector`, `SessionStore`, `ProcessingContext`,
`RunningExecution`, `CancellationState`, `Home`), loops are loops, and each is proved against functions
whose meaning is then proved by lemmas. What several processes do at once is a machine that takes one step
of one process at a time; every theorem about it holds for every sequence of steps.

Whatever the program asks of its surroundings is a parameter: whether a file operation succeeds, the time,
what SQLite answers, what the handler sends, what a directory lists. Theorems hold for every choice.

Two assumptions come from the design. A handler returns; it may send the connection any statements. And
closing a connection discards an open transaction.

## What the code does differently from what it says

The code was followed wherever it and its documentation or tests disagree.

- Member names outside ASCII are compared byte by byte when written raw and as scalar values when
  escaped: `Spelling.NonAsciiDuplicateMissed`, `Spelling.NonAsciiFalseDuplicate`. When a string is read as
  what it spells, exactly: `Spelling.SpelledStringIsRead`. Where the comparison is right:
  `Spelling.VerdictOnNames`.
- The stack scanner does not decode escapes, and takes some strings in arrays for names:
  `ScannerTheorems.EscapedNameMissed`, `ScannerTheorems.StrayStringReported`. What it reports, exactly:
  `ScannerTheorems.ScannerSilent`, and when it agrees with the detector: `ScannerTheorems.AgreementExactly`.
- A session created for a runtime of the other operation is written and can never be read again:
  `SessionModel.ReachableRoundTrip`.
- When the summary cannot be written on entering Running, the record says Running, the run ends, and no
  terminal transition follows: exactly so in the last clauses of `ProcessingRun.RunProcessing`, and for
  every session in `ProcessingRun.StrandedRun`.
- A handler that commits and begins again is not noticed: `ProcessingRun.ReopenedRun`. What is on disk after
  a failed run, exactly: `ProcessingRun.DatabaseAfterRun`. The test
  that expects an active transaction to be refused after the handler
  (lexicon-core/src/processing/context.rs:575-577) contradicts the check it calls.
- A summary written late can describe a record that has moved on: `StoreProtocol.LateSummaryIsStale`, and
  exactly when: `StoreProtocol.SummaryAgrees`.
- The background path is documented to return once the host owns the session
  (lexicon-framework/src/data/background.rs:86-89); it returns once the host has acknowledged:
  `Handoff.OkWithoutOwner`. The host loads the record before it takes the lease:
  `Handoff.LaunchOfFailedSession`, and exactly when that matters: `Handoff.LaunchExactly`. The runtime that it launches then refuses to bind, by
  `SessionStore.BindRuntimeSession`.
- Recording a cancellation is documented never to block (lexicon-framework/src/process/cancellation.rs:29-30);
  it takes a mutex.
- The recursive detector takes a form feed for blank, and any run of number bytes for a number, which the
  grammar of RFC 8259 does not. What it accepts, exactly: `AcceptedTexts.AcceptedExactly`.
- The installer writes its entry between double quotes as it is; when a shell reads it so, exactly:
  `ProfilePath.ExportReads`.
- A profile that is not text is read as empty, and is left empty when the edit is rolled back: the clause
  of `ProfilePath.Home.EnsurePath` about candidates tried before.

## Model

| member | source | states |
|---|---|---|
| `Calendar.CivilIsDate` | lexicon-core/src/session/model.rs:80-106 | The date computed from a day count is a valid Gregorian date, not before 1970, whose independently counted days from the epoch are that day count |
| `Calendar.CivilIsOnlyDate` | lexicon-core/src/session/model.rs:80-106 | It is the only valid date with that day count |
| `Calendar.CivilAscends` | lexicon-core/src/session/model.rs:80-106 | A later day has a later date |
| `Calendar.YearBound` | lexicon-core/src/session/model.rs:66-106 | No 64-bit nanosecond count reaches the year 2555, so the year has four digits |
| `Calendar.FormatWidth` | lexicon-core/src/session/model.rs:66-106 | Every 64-bit count formats to exactly thirty characters |
| `Calendar.FormatAscends` | lexicon-core/src/session/model.rs:66-106 | A smaller count formats to a lexicographically smaller text, over the whole 64-bit range; formatting is injective (RFC 3339, section 5.1) |
| `Calendar.FormatRoundTrip` | lexicon-core/src/session/model.rs:66-106 | Reading the text back by RFC 3339, section 5.6, digit by digit and separator by separator, with the calendar counted out year by year, gives the count |
| `Utf8.FittingIsLongest` | lexicon-core/src/session/model.rs:346-357 | The reference for truncation: the prefix fits in the bytes allowed and one more character does not |
| `Utf8.BoundaryIsPrefixEnd` | lexicon-core/src/session/model.rs:346-357 | Character boundaries of UTF-8 text are exactly the ends of encoded prefixes |
| `Utf8.TruncateToBytes` | lexicon-core/src/session/model.rs:346-357 | The loop keeps the longest prefix of whole characters that fits, never splits a character, and leaves at most three allowed bytes unused |
| `KeyDetector.JsonKeyDetector.constructor` | lexicon-core/src/runtime/invocation.rs:503-508 | A detector starts at the beginning of its input |
| `KeyDetector.JsonKeyDetector.SkipBlank` | lexicon-core/src/runtime/invocation.rs:721-729 | Skips exactly the whitespace run at the index |
| `KeyDetector.JsonKeyDetector.ConsumeToken` | lexicon-core/src/runtime/invocation.rs:741-752 | Skips blanks and then takes the expected byte, or fails without going further |
| `KeyDetector.JsonKeyDetector.ConsumeIf` | lexicon-core/src/runtime/invocation.rs:754-762 | Skips blanks and takes the byte if it is there |
| `KeyDetector.JsonKeyDetector.ParseUnicodeEscape` | lexicon-core/src/runtime/invocation.rs:604-697 | Four hexadecimal digits in either case give one scalar value; surrogates, short input and other characters are the three distinct errors |
| `KeyDetector.JsonKeyDetector.ParseString` | lexicon-core/src/runtime/invocation.rs:604-697 | The string loop yields the decoded value and stops past the closing quote, or yields the first error, as the position function says |
| `KeyDetector.JsonKeyDetector.ParseNumber` | lexicon-core/src/runtime/invocation.rs:699-708 | Stops after the run of number bytes |
| `KeyDetector.JsonKeyDetector.ParseLiteral` | lexicon-core/src/runtime/invocation.rs:710-719 | Accepts exactly the expected word at the index |
| `KeyDetector.JsonKeyDetector.ParseValue` | lexicon-core/src/runtime/invocation.rs:510-537 | Consumes one value or reports its first error |
| `KeyDetector.JsonKeyDetector.ParseSeparator` | lexicon-core/src/runtime/invocation.rs:539-602 | After an element or member: end, comma, trailing comma and missing terminator are told apart; what that means for whole texts is stated by the rows of AcceptedTexts |
| `KeyDetector.JsonKeyDetector.ParseArray` | lexicon-core/src/runtime/invocation.rs:539-565 | Consumes an array or reports its first error |
| `KeyDetector.JsonKeyDetector.ParseMember` | lexicon-core/src/runtime/invocation.rs:567-602 | Reads one member and refuses a name that the object has seen |
| `KeyDetector.JsonKeyDetector.ParseObject` | lexicon-core/src/runtime/invocation.rs:567-602 | Consumes an object, its names collected in a set, or reports its first error |
| `KeyDetector.JsonKeyDetector.Finish` | lexicon-core/src/runtime/invocation.rs:731-739 | Only whitespace may follow the value |
| `KeyDetector.RejectDuplicateObjectKeys` | lexicon-core/src/runtime/invocation.rs:491-495 | The detector terminates on every input with the verdict that AcceptedExactly and VerdictOnText are about |
| `DetectorTheorems.ScanQuoted` | lexicon-core/src/runtime/invocation.rs:604-697 | A quoted sequence of legal pieces without surrogate escapes reads as its decoded value and ends past its quote |
| `DetectorTheorems.VerdictOnText` | lexicon-core/src/runtime/invocation.rs:491-767 | On every well-formed JSON text (RFC 8259, sections 2 to 7) the whole text is consumed and the result is the first fault of the syntax tree in document order |
| `DetectorTheorems.CheckMeaning` | lexicon-core/src/runtime/invocation.rs:491-767 | A syntax tree has no fault exactly when no object at any depth repeats a decoded name and no string escapes a surrogate |
| `DetectorTheorems.ReportedNameRepeats` | lexicon-core/src/runtime/invocation.rs:567-602 | A reported name is the name of two members of one object |
| `DetectorTheorems.VerdictIsNoDuplicates` | lexicon-core/src/runtime/invocation.rs:491-767 | A well-formed text is accepted exactly when no object repeats a name as the detector decodes it, and no string escapes a surrogate |
| `AcceptedTexts.AcceptedExactly` | lexicon-core/src/runtime/invocation.rs:491-767 | On every input, well formed or not: the detector accepts exactly the texts that have a syntax tree, in which only a form feed may also be blank and a number is any run of number bytes with a digit or a minus in front, whose objects repeat no decoded name and whose strings escape no surrogate |
| `AcceptedTexts.BrokenArray` | lexicon-core/src/runtime/invocation.rs:539-565 | An array whose items are fine is refused for its trailing comma, or for its missing terminator, exactly as it goes on |
| `AcceptedTexts.BrokenObject` | lexicon-core/src/runtime/invocation.rs:567-602 | So is an object whose members are fine |
| `AcceptedTexts.ContentAfterForm` | lexicon-core/src/runtime/invocation.rs:731-739 | Anything but blanks after a value that is fine is refused as trailing content |
| `Spelling.SpelledStringIsRead` | lexicon-core/src/runtime/invocation.rs:604-697 | For every string and every legal way to write it (RFC 8259, section 7): the quoted text reads as that string, with the index just past the closing quote, exactly when every character that is not escaped is ASCII and no surrogate is escaped |
| `Spelling.AsciiStringIsRead` | lexicon-core/src/runtime/invocation.rs:604-697 | In particular every ASCII string is read back under every legal choice of escapes |
| `Spelling.SameIfRawAscii` | lexicon-core/src/runtime/invocation.rs:567-602 | Names whose raw characters are ASCII compare equal exactly when they spell the same string |
| `Spelling.SameIfEscapesAscii` | lexicon-core/src/runtime/invocation.rs:567-602 | So do names whose hexadecimal escapes are ASCII, whatever raw characters they have |
| `Spelling.VerdictOnNames` | lexicon-core/src/runtime/invocation.rs:491-767 | Where every object writes its names in one of these two ways, a well-formed text is accepted exactly when no object has two members whose names spell the same string, and no string escapes a surrogate |
| `Spelling.NonAsciiDuplicateMissed` | lexicon-core/src/runtime/invocation.rs:604-697 | Where the ways are mixed the promise fails: a name written raw and again with an escape is accepted |
| `Spelling.NonAsciiFalseDuplicate` | lexicon-core/src/runtime/invocation.rs:604-697 | And two different names outside ASCII can be refused as equal |
| `FlatScanner.ParseJsonString` | lexicon-core/src/processing/runtime_information.rs:390-422 | The scanner’s string loop yields the text up to the closing quote, escapes undecoded except for the escaped character itself, or nothing |
| `FlatScanner.DetectDuplicateObjectKeys` | lexicon-core/src/processing/runtime_information.rs:335-388 | The loop over an explicit stack of frames computes the scan function from an empty stack |
| `FlatScanner.FlatOnText` | lexicon-core/src/processing/runtime_information.rs:335-388 | On every well-formed text the scanner does what its frames do on the syntax tree |
| `ScannerTheorems.FaultMeans` | lexicon-core/src/processing/runtime_information.rs:335-388 | There is a first repeated string exactly when, in some object at some depth, something that is taken for a name comes twice |
| `ScannerTheorems.ScannerReports` | lexicon-core/src/processing/runtime_information.rs:335-388 | On every well-formed text the scanner reports the first string taken twice for a name of one object: its names, undecoded, and the strings after a comma of arrays in its values |
| `ScannerTheorems.ScannerSilent` | lexicon-core/src/processing/runtime_information.rs:335-388 | On every well-formed text it reports nothing exactly when no object, at any depth, has such a repetition |
| `ScannerTheorems.AgreementExactly` | lexicon-core/src/processing/runtime_information.rs:335-388 | When scanner and detector accept together, when the scanner misses a duplicate, when it raises a false alarm, and when both report the same name, each exactly and on every well-formed text |
| `ScannerTheorems.PlainDecode` | lexicon-core/src/processing/runtime_information.rs:390-422 | A name without other escapes than those of quote, backslash and slash reads the same to both detectors |
| `ScannerTheorems.ScannerAgrees` | lexicon-core/src/processing/runtime_information.rs:335-388 | The two agree, down to the name reported, on every well-formed text without surrogate escapes, with plain names and no string after a comma of an array inside an object |
| `ScannerTheorems.ArrayFreeIsQuiet` | lexicon-core/src/processing/runtime_information.rs:335-388 | Texts without arrays meet that condition on strings |
| `ScannerTheorems.ScannerMissesNothing` | lexicon-core/src/processing/runtime_information.rs:335-388 | With plain names, and arrays anywhere, the scanner reports a duplicate whenever the recursive detector does |
| `ScannerTheorems.EscapedNameMissed` | lexicon-core/src/processing/runtime_information.rs:390-422 | A name repeated with an escape is missed by the scanner and found by the recursive detector |
| `ScannerTheorems.StrayStringReported` | lexicon-core/src/processing/runtime_information.rs:335-388 | A string after a comma of an array is taken for a name, so a text without duplicates is refused |
| `SessionModel.TruncatedOnce` | lexicon-core/src/session/model.rs:268-344 | A failure has the kind and code it was made with and the longest beginning of its diagnostic, in whole characters, that fits in 4096 bytes; the second truncation on the way into the record changes nothing |
| `SessionModel.TransitionsAscend` | lexicon-core/src/session/transition.rs:17-48 | A transition is accepted exactly when it raises the rank of the state, does not leave Succeeded, and does not succeed a session that never ran |
| `SessionModel.RefusalsAreNamed` | lexicon-core/src/session/transition.rs:17-48 | A refusal names both states, except that a session that has succeeded or been abandoned is refused as terminal unless it is to be abandoned |
| `SessionModel.ReachableRecord` | lexicon-core/src/session/store.rs:368-401 | Every record that accepted transitions reach from a prepared one, under any clock, meets the state invariants, keeps its identity, schema version and creation time, counts its transitions in its revision, has at most three of them, and a bounded diagnostic |
| `SessionModel.ReachableTimes` | lexicon-core/src/session/store.rs:368-401 | State, times and failure of every such record are what its moves say: it started at the time of its move to Running, if there was one; it finished at the time of its last move, if that was to an end; its failure is that of its last move, cut to 4096 bytes, and there is none after any other move |
| `SessionModel.ThreeTransitions` | lexicon-core/src/session/transition.rs:17-48 | The bound of three transitions is reached |
| `SessionModel.RecordRoundTrip` | lexicon-core/src/session/model.rs:541-644 | Decoding undoes encoding on exactly the records with the current schema version, valid state fields and agreeing operations |
| `SessionModel.DecodesToItself` | lexicon-core/src/session/model.rs:541-644 | Whatever a record’s document decodes to is that record |
| `SessionModel.DocumentRoundTrip` | lexicon-core/src/session/model.rs:541-644 | A document that decodes is the encoding of what it decodes to |
| `SessionModel.ReachableRoundTrip` | lexicon-core/src/session/model.rs:496-644 | A session’s record reads back unchanged at every point of its life exactly when its operation agrees with its runtime’s; otherwise it always reads as corrupt |
| `SessionStore.DecisionAdvances` | lexicon-core/src/session/store.rs:235-258 | What a transition decides to write raises revision by one and rank strictly, keeps the origin, bears the time of the transition as the start of the session or as its end, and reads back as itself |
| `SessionStore.StaleDecision` | lexicon-core/src/session/store.rs:323-345 | Reconciliation’s transition of an unfinished record is decided whenever the record can be read, and gives Failed with the stale-ownership failure |
| `SessionStore.SessionStore.CreatePrepared` | lexicon-core/src/session/store.rs:137-170 | The record file is written first; when only the summary fails the result is a partial commit with the record in place, and an earlier failure changes nothing |
| `SessionStore.SessionStore.Load` | lexicon-core/src/session/store.rs:176-189 | Missing, unreadable and corrupt files are told apart; a loaded record is storable and is what the file encodes |
| `SessionStore.SessionStore.Transition` | lexicon-core/src/session/store.rs:235-273 | Either nothing changes, or exactly this session advances by the decided step, with its state, its revision, and the time of the transition as its start or its end; a failed summary is a partial commit with the record advanced |
| `SessionStore.SessionStore.RebuildStatus` | lexicon-core/src/session/store.rs:282-290 | On success the summary is the projection of the record on disk; on failure it is unchanged |
| `SessionStore.SessionStore.AcquireLease` | lexicon-core/src/session/lease.rs:36-54 | The exclusive lock is taken exactly when nobody holds it |
| `SessionStore.SessionStore.InspectLease` | lexicon-core/src/session/lease.rs:56-65 | Inspection reports whether somebody holds the lock and leaves the locks as they were |
| `SessionStore.SessionStore.ReconcileStale` | lexicon-core/src/session/store.rs:305-350 | The lease is given back on every path; a record changes only if it was unfinished and unowned, and then it becomes Failed with stale ownership; the exact cases of a result of None |
| `SessionStore.BindRuntimeSession` | lexicon-core/src/session/binding.rs:103-199 | Binding succeeds exactly when the record can be read, is Prepared, agrees in every identity and mode, and somebody holds the lease; otherwise the error names the first check that fails |
| `SessionStore.MismatchNames` | lexicon-core/src/session/binding.rs:103-199 | The field that a binding error names differs, and those compared before it agree |
| `StoreProtocol.TakeSound` | lexicon-core/src/session/store.rs:137-350 | Every step of every process keeps: record files are lives of accepted transitions, the summary projects a record that was durable, reconciling processes hold their lease, and no other lease is theirs |
| `StoreProtocol.RunSound` | lexicon-core/src/session/store.rs:137-350 | That holds in every run of any number of processes, with crashes and failures anywhere |
| `StoreProtocol.RunExtends` | lexicon-core/src/session/store.rs:235-273 | Over any run record files only move forward along the transitions already recorded |
| `StoreProtocol.AdvanceMeans` | lexicon-core/src/session/store.rs:235-273 | A step changes record files by creating a session, or by advancing one session from exactly the revision its call expects |
| `StoreProtocol.OneAdvance` | lexicon-core/src/session/store.rs:235-273 | Of all calls in a run that expect the same revision of the same session at most one changes anything |
| `StoreProtocol.VersionsAreAChain` | lexicon-core/src/session/store.rs:235-273 | The versions of a record are numbered from zero without gaps, each one accepted transition after the other, at most four, all of one origin |
| `StoreProtocol.SummaryAgrees` | lexicon-core/src/session/store.rs:260-271 | A summary that is written agrees with its record exactly when the record has not moved on since the process read or wrote it |
| `StoreProtocol.LateSummaryIsStale` | lexicon-core/src/session/store.rs:260-271 | A run in which that happens: created by one process, started by another, and summarised late, a session is left with a summary that says Prepared while its record says Running |
| `StoreProtocol.RebuildRestores` | lexicon-core/src/session/store.rs:282-290 | A rebuild that nothing overlaps restores agreement whatever the summary said before |
| `StoreProtocol.ReconcileIsCareful` | lexicon-core/src/session/store.rs:305-350 | While reconciling, a process changes only the unfinished record it loaded, only if that is still current and while it holds the lease itself; if the record moved on nothing changes and the lease is free again |
| `StoreProtocol.ReconcileReturns` | lexicon-core/src/session/store.rs:334-350 | What reconciliation returns is a Prepared or Running record turned Failed with stale ownership, and the lease is free |
| `StoreProtocol.NoLeaseLeaks` | lexicon-core/src/session/store.rs:305-350 | In every run a crashed process holds no lease, and an idle one keeps none from a reconciliation |
| `StoreProgress.EffectExactly` | lexicon-core/src/session/store.rs:137-350 | In every reachable world a step changes the record files exactly when its call can read and write, the record reads back, nobody has been faster and the transition goes forward; it then appends that transition with its time, or creates the session |
| `StoreProgress.LeaseExcludes` | lexicon-core/src/session/lease.rs:36-54 | A free lease can be taken; until its holder gives it back nobody else can take it or give it away, and giving it back frees it |
| `StoreProgress.ReconcileWorks` | lexicon-core/src/session/store.rs:305-350 | A reconciliation that nothing overlaps fails a session that is unfinished and owned by nobody, writes its summary and leaves every lease as it was; it leaves any other session alone |
| `ProcessingRun.UndisturbedTransaction` | lexicon-core/src/processing/context.rs:192-209 | If a transaction is active after the handler and the handler reopened none, nothing has become durable |
| `ProcessingRun.ReopenedTransaction` | lexicon-core/src/processing/context.rs:192-209 | A transaction that the handler commits and begins again passes the check, and its rows survive a rollback |
| `ProcessingRun.DurableExactly` | lexicon-core/src/processing/context.rs:192-209 | A handler’s statements make something durable exactly when one writes outside a transaction, or is a COMMIT that takes effect on a changed working copy |
| `ProcessingRun.ProcessingContext.constructor` | lexicon-core/src/processing/context.rs:119-129 | A context starts in the open-transaction state |
| `ProcessingRun.ProcessingContext.RequireTransactionActive` | lexicon-core/src/processing/context.rs:192-209 | Fails exactly outside a transaction; after the handler the violation is a possible partial commit, before it it is not |
| `ProcessingRun.ProcessingContext.RequireOpenTransaction` | lexicon-core/src/processing/context.rs:269-282 | Only the open state may end a transaction |
| `ProcessingRun.ProcessingContext.CommitDatabase` | lexicon-core/src/processing/context.rs:217-234 | Succeeds exactly from the open state inside a transaction when COMMIT does; then the durable contents are the handler’s; no second transaction statement is ever issued |
| `ProcessingRun.ProcessingContext.RollbackDatabase` | lexicon-core/src/processing/context.rs:243-254 | Whatever its result the durable contents stay; success exactly from the open state inside a transaction when ROLLBACK succeeds |
| `ProcessingRun.ProcessingContext.Drop` | lexicon-core/src/processing/context.rs:386-393 | Dropping the context closes the connection and discards what is uncommitted, whatever the last ROLLBACK does |
| `ProcessingRun.ProcessingContext.Handle` | lexicon-core/src/processing/runner.rs:964-967 | The handler’s statements take effect in order, and the call is counted |
| `ProcessingRun.ValidateDatabaseSidecars` | lexicon-core/src/processing/runner.rs:1433-1479 | Passes exactly when no sidecar is left but a regular rollback journal before opening; otherwise the first offending kind is reported, with what is wrong with it |
| `ProcessingRun.RunningExecution.constructor` | lexicon-core/src/processing/runner.rs:738-750 | A running execution has tried no terminal transition |
| `ProcessingRun.RunningExecution.Finish` | lexicon-core/src/processing/runner.rs:786-804 | One terminal transition is tried, with the revision at which Running was entered. If others have moved the session, the result is the conflict between the two revisions and the record stays as they left it; otherwise the record becomes that transition’s state, at its time and with its failure, exactly when it can be read and written, and the result is the exact error of what fails |
| `ProcessingRun.EnterRunning` | lexicon-core/src/session/binding.rs:223-231 | Succeeds exactly when the record can be read and both files are written, with the record that is then stored, one revision on and started at that time; exactly when only the summary is not written, the result is a partial commit with the record Running |
| `ProcessingRun.FailSetup` | lexicon-core/src/processing/runner.rs:766-783 | A set-up failure is recorded with its code and diagnostic, and keeps the set-up error when recording fails |
| `ProcessingRun.RecordedFailure` | lexicon-core/src/processing/runner.rs:766-804 | Kind and code of the failure that a run is to record tell exactly which step of its script failed |
| `ProcessingRun.SetUp` | lexicon-core/src/processing/runner.rs:899-962 | Set-up yields a context inside a transaction exactly when every set-up step works, and otherwise reports the first that does not |
| `ProcessingRun.FinishCommit` | lexicon-core/src/processing/runner.rs:1001-1074 | After a successful handler: a refused COMMIT, a lost COMMIT and a done COMMIT lead to the three distinct results |
| `ProcessingRun.FinishFailedCommit` | lexicon-core/src/processing/runner.rs:1004-1056 | A COMMIT that fails with the transaction still open is reported as a failed commit, and one that ends it as uncertain |
| `ProcessingRun.FinishCommitted` | lexicon-core/src/processing/runner.rs:1076-1144 | After Core’s COMMIT every failure is a partial commit; success needs sync, no sidecars and the recorded completion |
| `ProcessingRun.FinishRollback` | lexicon-core/src/processing/runner.rs:1149-1187 | After a failing handler the error is kept in every result and the source failure is recorded once |
| `ProcessingRun.FinishRolledBack` | lexicon-core/src/processing/runner.rs:1164-1187 | After Core’s ROLLBACK left-over sidecars are reported with the handler’s error |
| `ProcessingRun.RunEntered` | lexicon-core/src/processing/runner.rs:899-1188 | Every run from Running on reports faithfully, with one terminal transition that fits what happened to the database and ends as the script says |
| `ProcessingRun.RunProcessing` | lexicon-core/src/processing/runner.rs:837-1188 | For every outcome of every step: Running is entered exactly when the session binds and both files are written, and before it nothing happens; afterwards the handler is called at most once and exactly one terminal transition is tried. The run succeeds exactly when Core commits, syncs and finds no sidecars, nobody else has moved the session, and the record can be read and both files written. Otherwise the error of the terminal transition is exactly the read error, the conflict between the revision of Running and the one that others have reached, the write error or the partial commit. The record then says Succeeded for a clean commit and Failed for everything else, with the times of the run and its failure, exactly when the terminal transition reaches it, and else what others have made of it |
| `ProcessingRun.DatabaseAfterRun` | lexicon-core/src/processing/runner.rs:837-1188 | Success leaves the handler’s contents; a failure that is no partial or uncertain commit leaves those at BEGIN exactly when the handler was not called or none of its statements makes anything durable, which none does unless it reopens a transaction |
| `ProcessingRun.ReopenedRun` | lexicon-core/src/processing/runner.rs:837-1188 | A run that reports an ordinary handler failure and leaves the handler’s row on disk, whatever its terminal transition comes to |
| `ProcessingRun.StrandedRun` | lexicon-core/src/processing/runner.rs:885-890 | Every session can be left Running by a run that fails to write one summary |
| `Discovery.AcceptableMeans` | lexicon-core/src/processing/transactions.rs:454-519 | Only directories are acceptable: staging directories, which contribute nothing, and finalized candidates that are admitted and prove their provenance |
| `Discovery.EnumerateFinalized` | lexicon-core/src/processing/transactions.rs:454-519 | The loop yields the admitted candidates in listing order, or the error of the first entry that stops it |
| `Discovery.EnumerateRefuses` | lexicon-core/src/processing/transactions.rs:454-519 | Enumeration fails for a reason exactly when the first entry that is neither a staging directory nor an admitted candidate is refused for it: its kind, its name or its admission |
| `Discovery.CheckProves` | lexicon-core/src/processing/transactions.rs:583-679 | A transaction passes exactly when its session record is of this project and source, is an acquisition that started, and spans the transaction’s timestamps |
| `Discovery.CheckCached` | lexicon-core/src/processing/transactions.rs:383-425 | The per-session cache is transparent: entries, and the first error, are those of a loop that reloads and revalidates the record every time |
| `Discovery.CheckAllDisproves` | lexicon-core/src/processing/transactions.rs:383-425 | Checking fails for a reason exactly when the first transaction that does not prove its provenance fails on it: the first of the demands on the record and the timestamps that does not hold |
| `Discovery.FindDuplicate` | lexicon-core/src/processing/transactions.rs:438-448 | The set of seen identities finds a duplicate exactly when there is one |
| `Discovery.CheckedContributions` | lexicon-core/src/processing/transactions.rs:381-425 | Enumeration and checking succeed exactly when every entry is acceptable, and then yield what the entries contribute |
| `Discovery.SortedIsCatalog` | lexicon-core/src/processing/transactions.rs:427-450 | Sorted by creation time and identity, distinct contributions are the catalog |
| `Discovery.DiscoverTransactions` | lexicon-core/src/processing/transactions.rs:345-451 | Succeeds exactly when the input is admissible; the catalog then holds every finalized candidate exactly once, proven, strictly increasing by creation time and identity; otherwise the first step that fails gives the error, and an entry or transaction that fails is the first that does |
| `Discovery.SuccessIsOrderFree` | lexicon-core/src/processing/transactions.rs:345-451 | Success is the same for every permutation of the directory entries |
| `Discovery.CatalogIsOrderFree` | lexicon-core/src/processing/transactions.rs:345-451 | So is the catalog |
| `Handoff.RunSound` | lexicon-framework/src/data/background.rs:216-443 | In every interleaving with any number of other processes and crashes: beliefs about ownership are right, a failed launch has no child, only matching acknowledgements are accepted |
| `Handoff.OneOwner` | lexicon-framework/src/data/background.rs:216-443 | Initiator and host never own the session together |
| `Handoff.OkIsAcknowledged` | lexicon-framework/src/data/background.rs:253-326 | Ok is returned only after an acknowledgement with this session, this token and, when it is not zero, the child’s process identity |
| `Handoff.ErrorLeavesNothing` | lexicon-framework/src/data/background.rs:216-331 | An error leaves no child alive and no lease held, and the session is no longer Prepared if the failure was recorded |
| `Handoff.NoLaunchUnaccepted` | lexicon-framework/src/data/background.rs:334-443 | Unless the initiator crashes, no host is in a position to launch without an accepted acknowledgement |
| `Handoff.ErrorMeansNoLaunch` | lexicon-framework/src/data/background.rs:216-443 | A child whose initiator returns an error was at no time in a position to launch |
| `Handoff.HostIsAuthorized` | lexicon-framework/src/data/background.rs:379-395 | A host that goes on has itself read an intent file that, at that moment, handed this session over with this token |
| `Handoff.SettledExactly` | lexicon-framework/src/data/background.rs:185-331 | In every run without a crash of the initiator, it settles on an outcome exactly when it has its reason: a matching acknowledgement for Ok; a failed write of the intent; a failed spawn or wait; a child found gone; an acknowledgement that is malformed or does not match; a deadline found expired after no acknowledgement was found |
| `Handoff.PollingRound` | lexicon-framework/src/data/background.rs:232-324 | While the child lives and nothing is acknowledged, a round of polling before the deadline changes nothing, and one after it ends the wait |
| `Handoff.RecordedExactly` | lexicon-framework/src/data/background.rs:185-331 | An initiator has recorded its failure exactly when it failed the session at a moment when that was prepared |
| `Handoff.HostEndsExactly` | lexicon-framework/src/data/background.rs:356-443 | A host is gone exactly when it could not read a matching intent, could not acknowledge, did not find the session prepared, could not take the lease before its deadline, exited or was killed |
| `Handoff.NoIntentLeft` | lexicon-framework/src/data/background.rs:216-343 | When files can be removed and nobody else writes intents, none is left once the initiator has failed or returned |
| `Handoff.NoAckLeft` | lexicon-framework/src/data/background.rs:216-343 | Under the same conditions no acknowledgement is left once the initiator has failed |
| `Handoff.OkWithoutOwner` | lexicon-framework/src/data/background.rs:334-343 | Ok does not promise that the host owns the session: a run in which the host is gone and nobody does |
| `Handoff.LaunchOfFailedSession` | lexicon-framework/src/session/coordinator.rs:280-321 | The record is loaded before the lease is taken: a run in which another process takes the free lease and fails the session in between, and the host launches |
| `Handoff.LaunchExactly` | lexicon-framework/src/session/coordinator.rs:280-321 | In every run, a host that has the lease launches a prepared session exactly when no other process has moved the session |
| `Cancellation.CancellationState.constructor` | lexicon-framework/src/process/cancellation.rs:25-27 | Nothing is pending at first |
| `Cancellation.CancellationState.Record` | lexicon-framework/src/process/cancellation.rs:31-35 | The recorded kind is pending and announced |
| `Cancellation.CancellationState.Poll` | lexicon-framework/src/process/cancellation.rs:39-45 | The pending kind is delivered and gone |
| `Cancellation.RunSound` | lexicon-framework/src/process/cancellation.rs:31-45 | In every interleaving of recorders and pollers, at the granularity of lock, slot and flag: a pending value is announced by the flag, or a poller is between its swap and its take, or a recorder is between its write and its store; the latest value is pending or delivered |
| `Cancellation.DeliveredOnce` | lexicon-framework/src/process/cancellation.rs:31-45 | Every recorded cancellation is delivered at most once |
| `Cancellation.LostOnlyIfReplaced` | lexicon-framework/src/process/cancellation.rs:31-45 | One that is neither pending nor delivered has been replaced by a later one |
| `Cancellation.QuietRecord` | lexicon-framework/src/process/cancellation.rs:31-35 | With nobody inside a call, recording a kind makes that kind the pending one and announces it |
| `Cancellation.QuietPoll` | lexicon-framework/src/process/cancellation.rs:39-45 | With nobody inside a call, the next poll delivers the latest pending kind, or nothing if none is pending |
| `ProjectRoot.VisitDescendants` | lexicon-framework/src/lib.rs:2037-2081 | On every tree the search finds nothing exactly when no nested project and no unreadable directory is reachable through directories that are neither links nor pruned; otherwise it returns the first of these in componentwise order |
| `ProjectRoot.Ancestors` | lexicon-framework/src/lib.rs:1962-1975 | The walk collects every marked ancestor, innermost first |
| `ProjectRoot.FindProjectRoot` | lexicon-framework/src/lib.rs:1961-2006 | Succeeds exactly when one ancestor is marked and the search below it finds nothing; conflicts name the outermost and innermost marked ancestor, or the root and the least nested project |
| `ProfilePath.UndoAppend` | lexicon-bundle/src/envpath.rs:209-223 | Undoing an edit is undoing applied to the text before the edit, ended by a line feed |
| `ProfilePath.UndoIsIdentity` | lexicon-bundle/src/envpath.rs:209-223 | Undoing leaves a text alone exactly when it is not a single empty line, ends no line in a carriage return, and has no line that looks like the installer’s |
| `ProfilePath.RoundTrip` | lexicon-bundle/src/envpath.rs:84-223 | Append then undo gives the profile back, with a final line feed if it was not empty, exactly under those conditions |
| `ProfilePath.Candidates` | lexicon-bundle/src/envpath.rs:151-172 | The three startup files, each once, the one that the shell’s name points to first |
| `ProfilePath.AppendInstalls` | lexicon-bundle/src/envpath.rs:101-107 | The edited text begins with the old one, ended by a line feed, and adds exactly two lines, the marker and the export |
| `ProfilePath.ExportReads` | lexicon-bundle/src/envpath.rs:86 | A shell that reads the export line puts the entry before what PATH was, for every value of PATH, exactly when every character of the entry stands for itself between double quotes (POSIX.1, Shell Command Language, section 2.2.3) |
| `ProfilePath.Home.EnsurePath` | lexicon-bundle/src/envpath.rs:84-138 | A profile reported as modified begins with its old text, ended by a line feed, and two lines follow, the second of which is the export; one reported as not modified holds the export line already. The readable text of at most one profile changes: the one reported, or the one whose write failed; each candidate tried before is back to what could be read of it |
| `ProfilePath.InstallsOnce` | lexicon-bundle/src/envpath.rs:91-138 | Installing again, when the candidates that did not take effect again do not, reports the same profile as not modified and changes nothing |
| `ProfilePath.Home.ReverseAppend` | lexicon-bundle/src/envpath.rs:209-223 | The loop writes back the undone text and touches no other file; a file that is not text is left alone |
| `ContextPaths.ValidateCatalog` | lexicon-core/src/processing/context.rs:342-365 | Passes exactly when every entry is of this project and source; otherwise names the first that is not |
| `ContextPaths.ContextAlwaysAgrees` | lexicon-core/src/processing/context.rs:73-130 | Building the context cannot fail in a processing run: accepted paths, the derived database path and a discovered catalog pass every check |
| `ContextPaths.AcceptedExactly` | lexicon-core/src/session/context.rs:61-137 | The accepted paths are exactly the layout below a protocol root without parent components, for an absolute project root; protocol root, operation and session determine the rest |
| `ContextPaths.DatabaseAccepted` | lexicon-core/src/processing/runner.rs:1194-1246 | The database path is derived exactly when the file system inspections pass and the source name has only empty or dot components before its last slash, or is absolute and leads into the processed-data directory; it is then the last component’s file there |
| `ContextPaths.DatabaseIsInPlace` | lexicon-core/src/processing/runner.rs:1194-1246 | The derived database lies directly in the processed-data directory, below the protocol root |

## Left out

- The store's `load` and `write_atomic` are separate file operations without a lock (lexicon-core/src/session/store.rs:241-258); reading, checking and writing a record is one step of `StoreProtocol`, so nothing is claimed about updates lost inside it.
- Session identities are taken to be fresh when a session is created in `StoreProtocol`; the generator from time, process and counter is not modelled.
- SessionStore.BindRuntimeSession: says that somebody held the lease when it was inspected, not that a supervisor did, because inspection takes the lock itself for a moment.
- Handoff.RunSound: no bound on how long the initiator waits, because an acknowledgement file that cannot be read skips the deadline.
- Handoff.NoIntentLeft: an intent file that a failed write left incomplete counts as no intent, because nobody can read it as one.
- Handoff.ErrorLeavesNothing: takes `wait` to return only when the child is gone; a `wait` that fails is not modelled.
- ProcessingRun.RunProcessing: handlers that panic or never return are not modelled; other processes may move the session along while the handler runs, up to the first move that the store refuses them, but only the run completes it.
- Discovery.EnumerateFinalized: the classes of directory names and admission from disk are given with each entry; the staging and transaction-name grammars belong to the HTTP recorder, which is not part of this model.
- Discovery.DiscoverTransactions: which error is reported first may depend on the order of the entries; only success and the catalog do not.
- Spelling.VerdictOnNames: an object that mixes raw characters and hexadecimal escapes above ASCII in its names is covered by DetectorTheorems.VerdictIsNoDuplicates only, by names as the detector decodes them.
- FlatScanner.DetectDuplicateObjectKeys: nothing is claimed about what the scanner finds in texts that are not well formed, beyond what its position function computes; the recursive detector refuses those, by AcceptedTexts.AcceptedExactly.
- KeyDetector.RejectDuplicateObjectKeys: recursion is unbounded; the depth of the machine stack is not modelled.
- JSON text of session documents, serde, SQLite itself, file locks, fsync, process spawning and shells: foreign code, represented by its outcomes.
- Only the HTTP protocol exists, so protocol comparisons that cannot fail have no counterpart.
- Branches that the surrounding code makes unreachable: the set-up error for a transaction lost after the handler, the commit error that is not SQLite's, and the lost provenance-cache record.
- ContextPaths.ContextAlwaysAgrees: paths are their components; native path encodings and prefixes are not modelled.
- ProjectRoot.FindProjectRoot: takes an absolute starting path; links among the ancestors are whatever the file system answers at each path.
- Foreground supervision, session selection, publication, acquisition, HTTP recording, scaffolding, manifests, bundles other than the profile edit, and the command line: outside this model.
