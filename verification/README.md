# Model of liter-llm's build, release and gateway logic

Six components of the repository, each as a Dafny model with proofs:

- **Header publishing** (`FileSystem`, `HeaderPublish`, `HeaderPublishSafety`, `HeaderPublishRun`,
  `HeaderPublishLoss`, `HeaderPublishFiles`). The build script of the C bindings replaces one generated header
  at several destinations, each through a temporary file and a backup, and rolls back on the first failure. The
  disk is a map from path to bytes, every system call may fail by a schedule, and every intermediate disk image
  is recorded, each prefix of a written file included, so that a statement about all images is a statement about
  a crash at any moment.
- **Graceful shutdown** (`Shutdown`, `ShutdownSafety`, `ShutdownProgress`). One phase cell and one cancellation
  token, any number of signal handlers, one waiter and its drain tasks, as interleaved atomic steps; safety over
  all runs, and what can always still be done.
- **Kotlin coordinates** (`KotlinComments`, `KotlinGrammar`, `KotlinCoordinates`, `KotlinSplice`, `KotlinSync`,
  `KotlinRelease`, `KotlinAccepted`, `KotlinScript`). A length-preserving comment stripper, and the rewriting of
  two version pins at positions found in the stripped text.
- **Catalog generator** (`Catalog`, `Schema`, `SchemaChecks`, `Transform`, `Decimal`, `CostText`, `Json`,
  `JsonText`, `JsonLayout`, `LayoutForm`, `CatalogJson`, `Render`, `RenderFields`, `RenderText`, `CatalogBuild`,
  `CatalogRead`, `CatalogReadBack`, `CatalogMeaning`, `CatalogNames`, `CatalogByName`, `Drift`, `DriftDetects`,
  `DriftExact`). Validation, transformation, a hand-rolled JSON printer with fixed-point costs, and the drift
  check. The printer is proved equal to a uniform layout of the document's JSON value, and that layout is proved
  to be read back by a parser of RFC 8259. What a reader then finds under the names of the format is stated in
  terms of the upstream catalog.
- **Start-up reader** (`LineReader`). The listener that reads the mock server's announcement from chunks.
- **Service pool and guardrails** (`Guardrails`, `ServiceStack`, `ServicePool`). All-or-nothing construction,
  the order of the layers, and what a blocked request leaves behind.

A loop or an object that changes state in the source is a method or a class here, proved against a function; the
properties are lemmas about that function. `Wrappers` holds `Option` and `Result`.

Where code and comments disagree, the code is followed: `wait_for_drained` need not return the final phase
(`crates/liter-llm-proxy/src/shutdown.rs:318`), the default client does depend on the iteration order
(`crates/liter-llm-proxy/src/service_pool.rs:62-63`), a `Mutate` decision does not rewrite what later guardrails
see (`crates/liter-llm/src/guardrail/registry.rs:19`), and a context window of zero is valid
(`crates/liter-llm-catalog-gen/src/schema.rs:429-430`). For each of the four there is a lemma with the exact
condition under which the comment is right, and one with a run or an input for which it is not.

## Model

| member | source | states |
|---|---|---|
| HeaderPublish.AtomicWriteTo | crates/liter-llm-ffi/build.rs:130-207 | One replacement, call by call on a mutable volume where every call may fail; its effect is the one the crash and outcome lemmas below speak about. |
| HeaderPublishSafety.SiblingsAreDistinct | crates/liter-llm-ffi/build.rs:143-152 | Destination, temporary and backup are three different files, and two destinations never share a temporary or a backup. |
| HeaderPublishSafety.AtomicWriteIsCrashSafe | crates/liter-llm-ffi/build.rs:130-207 | After every single step, under every failure pattern, the destination holds the old bytes, holds the new bytes, or is absent while the backup holds the old ones; no other file changes. |
| HeaderPublishSafety.AtomicWriteOutcome | crates/liter-llm-ffi/build.rs:130-207 | Ok installs the new bytes; an error leaves the destination as it was if and only if it is not the case that both renames failed, and then the backup holds the old bytes. ReplacementLeaves adds what is left beside the destination. |
| HeaderPublish.RollbackHeaders | crates/liter-llm-ffi/build.rs:111-128 | The restoring loop visits the destinations in order and collects one error for each that could not be restored. |
| HeaderPublishSafety.RollbackRestores | crates/liter-llm-ffi/build.rs:111-128 | Every destination that no rollback error names is back at its snapshot, absent files included; nothing outside the destinations' files changes. |
| HeaderPublish.SnapshotIsTheDisk | crates/liter-llm-ffi/build.rs:83-93 | The snapshot is what was on the disk for every destination, absence included; reading changes nothing. |
| HeaderPublishSafety.PublishFromOutcome | crates/liter-llm-ffi/build.rs:94-108 | From any point of the loop on: success leaves the new bytes everywhere, failure the snapshot wherever rollback names no error; an error needs a failing call and a failing rollback two. |
| HeaderPublishSafety.PublishIsAllOrNothing | crates/liter-llm-ffi/build.rs:82-128 | For any destinations and any failures: Ok means the new bytes everywhere; Err leaves every destination not named in a rollback error as it was; without a failing call the result is Ok. |
| HeaderPublishSafety.OneFaultIsHarmless | crates/liter-llm-ffi/build.rs:82-128 | With at most one failing call in the whole run no destination is left in between: all hold the new bytes, or all hold what they held. |
| HeaderPublishRun.ReadOriginals | crates/liter-llm-ffi/build.rs:83-93 | The reading loop stops at the first failure and otherwise returns the snapshot. |
| HeaderPublishRun.ReplaceAll | crates/liter-llm-ffi/build.rs:94-108 | The replacing loop, with the rollback of exactly the destinations up to the failing one. |
| HeaderPublishRun.PublishHeaders | crates/liter-llm-ffi/build.rs:82-109 | The whole publication on a mutable volume is all or nothing. |
| HeaderPublishRun.RollbackImages | crates/liter-llm-ffi/build.rs:111-128 | Every disk image during a rollback keeps a destination recoverable that holds the old or the new header when it starts, or that is only in its backup and not reached. |
| HeaderPublishLoss.ReplacementClock | crates/liter-llm-ffi/build.rs:130-207 | How many calls one replacement makes, whether it succeeds and whether it gets stuck is decided by the schedule of failing calls and by whether there is an old file. |
| HeaderPublishLoss.PublishIsCrashSafe | crates/liter-llm-ffi/build.rs:82-207 | A crash at any moment of the whole run, rollback included, leaves a destination with the old or the new header, or absent with one of them in its backup, if and only if it is not the case that both forward renames of it failed and the first three calls of its own rollback succeed. In that case the run still ends so if and only if the next rename of the rollback succeeds, and no copy is left in the end if and only if it fails and the temporary file is then removed. All three conditions are on the schedule of failing calls and on which files are there. |
| HeaderPublishLoss.TwoFailingRenamesExposeTheHeader | crates/liter-llm-ffi/build.rs:153-187 | Two failing renames and nothing else: there is a moment with neither header nor backup, because the rollback removes the backup as stale; if the first call of the rollback fails as well there is none. |
| HeaderPublishLoss.RollbackCanLoseTheHeader | crates/liter-llm-ffi/build.rs:153-187 | Three failing renames leave no copy of the header anywhere. |
| HeaderPublishFiles.ReplacementLeaves | crates/liter-llm-ffi/build.rs:130-207 | What one replacement reports, and what it leaves at the destination, the temporary name, the backup name and everywhere else, for every schedule: after Ok no temporary file, and no backup unless the last call, which removes it, fails. |
| HeaderPublishFiles.SiblingNames | crates/liter-llm-ffi/build.rs:139-153 | Temporary and backup stand beside the destination, named after it with `.alef-tmp-` or `.alef-backup-` and the process number; a destination has them exactly if it ends in a file name. |
| HeaderPublishFiles.UnpublishableIsRefused | crates/liter-llm-ffi/build.rs:131-142 | A destination without a parent is refused before any call, one without a file name behind the first call; the disk does not change. |
| HeaderPublishFiles.HealthyPublicationIsClean | crates/liter-llm-ffi/build.rs:82-109 | Without a failing call the disk ends as it was but for the new header at every destination, with no temporary or backup file beside any of them. |
| HeaderPublishFiles.FailsAtTheFirst | crates/liter-llm-ffi/build.rs:94-108 | The error names the first destination that could not be replaced and why, the rollback goes up to that one, and at no moment is a file of a later destination touched. |
| HeaderPublishFiles.SnapshotNamesTheFirst | crates/liter-llm-ffi/build.rs:83-93 | The first read that fails is the one that is reported. |
| HeaderPublishFiles.RestoreReports | crates/liter-llm-ffi/build.rs:111-128 | A restoration fails exactly when the schedule makes its replacement or its removal fail, and names the destination. |
| HeaderPublishFiles.RollbackReports | crates/liter-llm-ffi/build.rs:111-128 | The errors of a rollback are those of the single restorations, in order. |
| ShutdownSafety.InvAlongRun | crates/liter-llm-proxy/src/shutdown.rs:173-399 | In every state of every interleaving the inductive invariant holds: positions of the tasks agree with phase, token, results and recorded causes. |
| ShutdownSafety.PhaseMovesForward | crates/liter-llm-proxy/src/shutdown.rs:173-194 | Over any stretch of any run the phase rank never falls, Aborted is never left, and Running is left to Draining only. |
| ShutdownSafety.TokenFollowsPhase | crates/liter-llm-proxy/src/shutdown.rs:248-257 | A cancelled token means at least Draining; a phase past Running with the token not cancelled means some handler stands between its two writes. |
| ShutdownSafety.VerdictIsTrue | crates/liter-llm-proxy/src/shutdown.rs:319-399 | A verdict of Aborted is the phase from then on; a verdict of Drained means one clean result for every registered subsystem; the phase is Drained only after that verdict. |
| ShutdownSafety.EachTaskOnce | crates/liter-llm-proxy/src/shutdown.rs:356-370 | Taking every task's result, none twice, takes as many results as there are tasks. |
| ShutdownSafety.VerdictIsThePhaseUnlessAHandlerAborted | crates/liter-llm-proxy/src/shutdown.rs:312-319 | The returned value is the shared phase if and only if the run does not hold both the waiter's write of Drained and an aborting write of a signal handler, before or after it; the comment promises it always. |
| ShutdownSafety.AbortHasACause | crates/liter-llm-proxy/src/shutdown.rs:234-393 | Aborted has a first cause, and its steps are in the run: a signal to a second handler; a second signal behind the step in which its handler cancelled the token; the deadline 30 s after the step that spawned the drain tasks; a drain task that timed out or panicked. |
| ShutdownSafety.LateSignalsNeedTwoHandlers | crates/liter-llm-proxy/src/shutdown.rs:234-246 | Finding the drain already started on the first signal takes two handlers. |
| ShutdownSafety.OneHandlerAbortsForThreeReasons | crates/liter-llm-proxy/src/shutdown.rs:257-393 | With one handler: a second signal behind the step that first cancelled the token, within 5 s of it if the scheduler is prompt; or 30 s passed between spawning the drain tasks and the end of waiting for them; or a drain task failed. |
| ShutdownSafety.SecondSignalsComeInTime | crates/liter-llm-proxy/src/shutdown.rs:259-284 | If time does not pass the end of a window before its handler looks, every second signal that aborts came within 5 s of the step in which that handler cancelled the token. |
| ShutdownSafety.DrainedCanBecomeAborted | crates/liter-llm-proxy/src/shutdown.rs:184-194 | Drained is not final: a reachable state goes on to Aborted after the waiter returned Drained. |
| ShutdownSafety.DrainedCanBeReturnedWhileAborted | crates/liter-llm-proxy/src/shutdown.rs:396-398 | A reachable run returns Drained although the phase is already Aborted. |
| ShutdownProgress.FirstSignalDrains | crates/liter-llm-proxy/src/shutdown.rs:226-257 | In a running proxy a handler's steps behind the first signal are all possible; they start the drain, cancel the token and open the window. |
| ShutdownProgress.LaterSignalsAbort | crates/liter-llm-proxy/src/shutdown.rs:234-285 | A first signal that finds the drain started, and a second one in an open window, can be followed to Aborted in the handler's next steps. |
| ShutdownProgress.HandlersActOnWhatTheyRead | crates/liter-llm-proxy/src/shutdown.rs:234-248 | After reading the phase a handler can abort if and only if the phase was past Running, and start the drain if and only if it was not. |
| ShutdownProgress.WindowsStayOpen | crates/liter-llm-proxy/src/shutdown.rs:258-284 | In every run a window that closes was open for at least 5 s after its handler cancelled the token. |
| ShutdownProgress.EachEndHasItsVerdict | crates/liter-llm-proxy/src/shutdown.rs:345-399 | All results taken and clean leads to Drained; a result that is not clean, the deadline, and an abort that is seen lead to Aborted, phase included. |
| ShutdownProgress.ResultsAreTaken | crates/liter-llm-proxy/src/shutdown.rs:356-370 | A finished task's result can be taken, once, and a panic counts as not clean. |
| ShutdownProgress.WaiterCanReturn | crates/liter-llm-proxy/src/shutdown.rs:319-399 | From every state past Running the waiter can return by its own steps and the passing of time up to its deadline, whatever handlers and tasks do. |
| ShutdownProgress.DeadlineIsNear | crates/liter-llm-proxy/src/shutdown.rs:330-353 | In every run the deadline is at most 30 s away while results are collected. |
| KotlinComments.WithoutComments | scripts/ci/check_kotlin_consumer_version.py:13-46 | The counting loop returns what the recursive lexer with nested comments and strings returns, errors included. |
| KotlinComments.StripKeepsShape | scripts/ci/check_kotlin_consumer_version.py:13-46 | On success the length is kept, newlines stay at the same indices, every character outside comments stays, every other character of a comment becomes a space. |
| KotlinComments.StripSucceeds | scripts/ci/check_kotlin_consumer_version.py:37-45 | It succeeds exactly when every comment and every string is closed. |
| KotlinGrammar.StripReadsPieces | scripts/ci/check_kotlin_consumer_version.py:13-46 | The stripper accepts a text with a result if and only if the text falls, up to its end, into nested block comments, line comments, raw strings, quoted strings and single characters, and the result is the text with those comments blanked. It reports an open comment or an open string if and only if the text falls into such pieces up to a place where one opens that never ends. |
| KotlinSplice.MaskAcross | scripts/ci/check_kotlin_consumer_version.py:13-46 | Exchanging a live plain stretch for another puts exactly the same characters inside comments as before, moved with the text. |
| KotlinSplice.StripCommutesWithEdit | scripts/ci/check_kotlin_consumer_version.py:13-46 | Stripping commutes with exchanging a live stretch of plain text behind a colon. |
| KotlinCoordinates.EachIsAPin | scripts/ci/check_kotlin_consumer_version.py:64-65 | Every match is a coordinate followed by the longest run of characters that are neither quotes nor white space. |
| KotlinCoordinates.PinsAreOrdered | scripts/ci/check_kotlin_consumer_version.py:64-65 | The matches come in order and do not overlap. |
| KotlinCoordinates.NoPinIsMissed | scripts/ci/check_kotlin_consumer_version.py:64-65 | A coordinate with a value character behind it is a match or lies inside one. |
| KotlinCoordinates.SpliceAll | scripts/ci/check_kotlin_consumer_version.py:68-69 | The reversed loop over the matches is right-to-left splicing. |
| KotlinCoordinates.SynchronizeCoordinates | scripts/ci/check_kotlin_consumer_version.py:62-71 | The whole operation: both strip errors, the count of two, the splice and the final verification. |
| KotlinSync.PinsAcross | scripts/ci/check_kotlin_consumer_version.py:64-69 | After one version was rewritten every coordinate is found again, moved by the difference in length, and no other. |
| KotlinSync.StripSplice | scripts/ci/check_kotlin_consumer_version.py:62-69 | Stripping commutes with rewriting one plain version. |
| KotlinRelease.SplicesAreSimultaneous | scripts/ci/check_kotlin_consumer_version.py:68-69 | Right-to-left splicing is simultaneous replacement: everything outside the two spans, comments included, is unchanged. |
| KotlinRelease.StripCommutesWithRewrite | scripts/ci/check_kotlin_consumer_version.py:62-71 | For plain old and new versions, stripping commutes with rewriting both, and the coordinates are found again exactly where they were written. |
| KotlinRelease.LastWins | scripts/ci/check_kotlin_consumer_version.py:62-71 | Of two synchronizations the last one wins, for whatever second version. |
| KotlinRelease.SynchronizeTwice | scripts/ci/check_kotlin_consumer_version.py:62-71 | Synchronizing what was synchronized changes nothing, for every script and version. |
| KotlinAccepted.DeclaredInPins | scripts/ci/check_kotlin_consumer_version.py:53-57 | The scan for coordinates never misses a declared one: it cannot run over the opening quote. |
| KotlinAccepted.DeclaresMeansWritten | scripts/ci/check_kotlin_consumer_version.py:55-59 | A version is declared exactly where the text reads `implementation(` and the quoted coordinate, or `val`, white space, `aarCoord`, `=` with or without white space on either side, and the quoted coordinate. |
| KotlinAccepted.AcceptedExactlyWhenPinned | scripts/ci/check_kotlin_consumer_version.py:49-59 | A text is accepted if and only if its live coordinates are two, one written out as the dependency and one as the constant, both with the version: no other coordinate is live, and none is declared twice. |
| KotlinScript.ScriptIsAccepted | scripts/ci/check_kotlin_consumer_version.py:49-59 | The script that reads `val aarCoord = ` and the quoted coordinate, then on a new line the dependency, is accepted with its version, for every plain version. |
| KotlinScript.ScriptIsSynchronized | scripts/ci/check_kotlin_consumer_version.py:62-71 | Synchronizing that script with another version succeeds and gives that script with the other version. |
| KotlinRelease.VersionsAreRewritten | scripts/ci/check_kotlin_consumer_version.py:49-71 | With plain versions a synchronization succeeds or fails for a missing declaration, never for its versions. |
| LineReader.SplitIsExact | e2e/node/globalSetup.ts:57-58 | The pieces are lines without newlines, and joined again they are the text. |
| LineReader.SplitAppend | e2e/node/globalSetup.ts:56-58 | Text behind a cut only adds to the piece that was still open. |
| LineReader.Listener.Finish | e2e/node/globalSetup.ts:47-53 | Only the first call resolves; it stops timer and handler. |
| LineReader.Listener.Handle | e2e/node/globalSetup.ts:59-71 | One line: address, table or output, in the code's order of matches; the lines that give each of them are those of AddressLine, TableLine and OtherLine. |
| LineReader.AddressLine | e2e/node/globalSetup.ts:60-62 | White space, `MOCK_SERVER_URL=`, a text without white space at its ends, and white space hand over that text as the address, up to a line terminator. |
| LineReader.TableLine | e2e/node/globalSetup.ts:63-68 | The same for `MOCK_SERVERS=` and the table. |
| LineReader.OtherLine | e2e/node/globalSetup.ts:69-71 | Every other line is output if it is not blank and does not begin with `MOCK_SERVER`, and nothing otherwise. |
| LineReader.Listener.OnData | e2e/node/globalSetup.ts:55-73 | A chunk takes the listener to what a reader of the whole text so far has collected, with the unfinished line kept. |
| LineReader.Listener.OnTimeout | e2e/node/globalSetup.ts:75-79 | The running timer rejects and detaches the handler. |
| LineReader.Listener.Deliver | e2e/node/globalSetup.ts:41-82 | For every sequence of chunks and time-out the promise is told at most one thing: the result of the text that came in time, or the rejection. |
| LineReader.ChunkingDoesNotMatter | e2e/node/globalSetup.ts:55-73 | Two ways of cutting the same text are told the same result, whatever follows. |
| LineReader.CollectsTheLast | e2e/node/globalSetup.ts:61-68 | After any lines the address is the one of the last line that gives one, the table that of the last one that parses. |
| LineReader.PendingUntilThen | e2e/node/globalSetup.ts:61-71 | Nothing is resolved before a line hands over a known address. |
| LineReader.SettledByTheFirst | e2e/node/globalSetup.ts:61-71 | The result is what had been collected up to and including the first line that hands over. |
| LineReader.LaterOutputIsIgnored | e2e/node/globalSetup.ts:47-53 | Output behind the settling line changes nothing. |
| Schema.ValidateRates | crates/liter-llm-catalog-gen/src/schema.rs:587-631 | Ok exactly when all seven costs are finite and not negative, otherwise the first one that is not, in order. |
| Schema.ValidateTiers | crates/liter-llm-catalog-gen/src/schema.rs:554-581 | The loop over the tiers with the set of sizes seen reports the first bad cost or repeated size. |
| Schema.ValidateModel | crates/liter-llm-catalog-gen/src/schema.rs:495-585 | Ok exactly for a valid model, otherwise its first violated field. |
| Schema.ValidateProvider | crates/liter-llm-catalog-gen/src/schema.rs:451-493 | Ok exactly when the five provider fields are not empty, otherwise the first that is. |
| Schema.ValidateCatalog | crates/liter-llm-catalog-gen/src/schema.rs:432-440 | Ok exactly when every provider, model, cost and tier meets its constraints, otherwise the first violation in map and field order, which is one only. |
| SchemaChecks.ModelChecksDecide | crates/liter-llm-catalog-gen/src/schema.rs:495-631 | A model is valid if and only if every check of one literal list passes, and what is reported is the first check of that list that fails, in the order of the source, seven costs and one size for each tier. |
| SchemaChecks.ProviderChecksDecide | crates/liter-llm-catalog-gen/src/schema.rs:451-493 | The same for the five checks of a provider. |
| SchemaChecks.CatalogChecksDecide | crates/liter-llm-catalog-gen/src/schema.rs:432-440 | A catalog is valid if and only if every check of every provider and every model passes. |
| Schema.OnlyZeroWindowsDiffer | crates/liter-llm-catalog-gen/src/schema.rs:427-429 | The documentation demands a positive context window; a valid model has none exactly when its window is zero, and any valid model stays valid with that (ZeroWindowIsValid has one). |
| Transform.LimitsAreNearest | crates/liter-llm-catalog-gen/src/transform.rs:273-279 | After validation no limit of the document takes the fallback of zero: each is the nearest count, halves up, or the cap at 2^64-1. |
| Transform.SortIsStable | crates/liter-llm-catalog-gen/src/transform.rs:233-238 | Sorting tiers gives a permutation in order of the thresholds in which equal thresholds keep their order. |
| Transform.StrictOrderIsUnique | crates/liter-llm-catalog-gen/src/transform.rs:238 | A strictly increasing list of given tiers is unique. |
| Transform.ValidTiersAreStrict | crates/liter-llm-catalog-gen/src/transform.rs:232-250 | After validation the tiers of a price are a strictly increasing permutation of the upstream tiers. |
| Transform.TierOrderDoesNotMatter | crates/liter-llm-catalog-gen/src/transform.rs:232-250 | In whatever order upstream lists them. |
| Transform.SelectsTheGreatest | crates/liter-llm/src/cost.rs:528-534 | The run-time lookup gives a tier that applies and has the greatest threshold, or nothing if none applies. |
| Transform.LookupFindsUpstreamTier | crates/liter-llm/src/cost.rs:523-534 | In the generated list it finds the one upstream tier with the greatest threshold at or below the token count. |
| Decimal.HalfEven | crates/liter-llm-catalog-gen/src/render.rs:292 | Rounding to the last place is to the nearest, ties to even. |
| Decimal.TrimmedIsPlain | crates/liter-llm-catalog-gen/src/render.rs:292-298 | Trimming zeros and the point and adding `.0` back gives whole part, point and shortest fraction. |
| Decimal.ZeroShortcutAgrees | crates/liter-llm-catalog-gen/src/render.rs:289-291 | The shortcut for zero gives what the general path gives. |
| CostText.CostText | crates/liter-llm-catalog-gen/src/render.rs:287-299 | A cost text is a number of the JSON grammar, the multiple of 10^-15 nearest to the cost (the even one of two), with at most 15 places, no exponent and no digit that could be left out. |
| CostText.CostDenotes | crates/liter-llm-catalog-gen/src/render.rs:287-299 | It denotes exactly the rounded cost. |
| CostText.PrintedAgain | crates/liter-llm-catalog-gen/src/render.rs:287-299 | Printing the number read back gives the same text exactly when the cost is not negative or does not round to zero. |
| CostText.WholeNumber | crates/liter-llm-catalog-gen/src/render.rs:222-227 | A token count is printed as a JSON number that denotes it. |
| JsonLayout.QuoteReads | crates/liter-llm-catalog-gen/src/render.rs:301-305 | A quoted and escaped string is read back as that string, for every string (RFC 8259, section 7). |
| JsonLayout.NonFiniteFails | crates/liter-llm-catalog-gen/src/render.rs:287-299 | What is printed for a cost that is not finite is no JSON token. |
| JsonText.ReadsTokens | crates/liter-llm-catalog-gen/src/render.rs:33 | A parser by sections 3 to 5 of RFC 8259 reads a value from its tokens. |
| JsonLayout.LayoutRoundTrip | crates/liter-llm-catalog-gen/src/render.rs:33 | Parsing a laid-out value gives the value back, and fails when a number in it is none. |
| LayoutForm.TwoMembers | crates/liter-llm-catalog-gen/src/render.rs:18-113 | Members stand on lines of their own, two spaces further in than the braces, name and value separated by `: `, a comma behind all but the last. |
| LayoutForm.TwoItems | crates/liter-llm-catalog-gen/src/render.rs:168-220 | Objects in a list stand on lines of their own in the same way. |
| LayoutForm.TwoStrings | crates/liter-llm-catalog-gen/src/render.rs:307-311 | Strings in a list stand on one line, separated by `, `. |
| LayoutForm.EndsWithNewline | crates/liter-llm-catalog-gen/src/render.rs:30-31 | The file ends with one newline. |
| LayoutForm.EscapesInStrings | crates/liter-llm-catalog-gen/src/render.rs:301-305 | Quote, backslash and the control characters are escaped as RFC 8259, section 7, has it, in the short form where there is one. |
| Render.StringArrayIsPretty | crates/liter-llm-catalog-gen/src/render.rs:307-311 | An array of strings stays on one line, at every depth. |
| Render.PushCosts | crates/liter-llm-catalog-gen/src/render.rs:117-156 | The seven costs common to a price and a tier, in the order of the format. |
| Render.TierFields | crates/liter-llm-catalog-gen/src/render.rs:173-212 | Threshold and costs of one tier. |
| Render.TiersField | crates/liter-llm-catalog-gen/src/render.rs:168-220 | The loop over the tiers prints the array's layout, commas between and none behind the last. |
| Render.PricingField | crates/liter-llm-catalog-gen/src/render.rs:115-166 | The price object, with its tiers only if there are any. |
| RenderFields.LimitField | crates/liter-llm-catalog-gen/src/render.rs:222-234 | The limits, with the input limit only if there is one. |
| RenderFields.ModalitiesField | crates/liter-llm-catalog-gen/src/render.rs:236-250 | The two arrays of modalities. |
| RenderFields.CapabilitiesField | crates/liter-llm-catalog-gen/src/render.rs:252-275 | All nine flags, always. |
| RenderFields.ModelFields | crates/liter-llm-catalog-gen/src/render.rs:79-107 | The fields of a model in their order, optional ones left out. |
| RenderFields.RenderModel | crates/liter-llm-catalog-gen/src/render.rs:76-113 | One model is printed as the uniform layout of its JSON value, with a comma unless it is the last. |
| RenderText.RenderProvider | crates/liter-llm-catalog-gen/src/render.rs:55-74 | One provider is printed as the uniform layout of its JSON value. |
| RenderText.ProviderBody | crates/liter-llm-catalog-gen/src/render.rs:57-71 | The members of a provider, the base address only if there is one, the models last. |
| RenderText.RenderProvenance | crates/liter-llm-catalog-gen/src/render.rs:38-53 | The four provenance members. |
| RenderText.DocumentText | crates/liter-llm-catalog-gen/src/render.rs:18-31 | The pushed pieces are the uniform layout of the document's JSON value, for any number of providers and models including none. |
| CatalogBuild.DocumentIsSpelled | crates/liter-llm-catalog-gen/src/render.rs:33 | Every number of the document is one exactly when no cost is infinite or not a number. |
| CatalogBuild.PrinterRoundTrip | crates/liter-llm-catalog-gen/src/render.rs:18-36 | Parsing the printed document gives the document's JSON value, and fails exactly for a cost that is not finite. |
| CatalogBuild.RenderDocument | crates/liter-llm-catalog-gen/src/render.rs:18-36 | Ok with the layout exactly when all costs are finite, otherwise the self-check's error. |
| CatalogBuild.ValidCatalogIsFinite | crates/liter-llm-catalog-gen/src/transform.rs:159-250 | Transforming a validated catalog gives finite costs only. |
| CatalogReadBack.PricingReads | crates/liter-llm-catalog-gen/src/render.rs:115-166 | A reader by name gets a price back, every optional cost and tier in place, costs rounded. |
| CatalogReadBack.ModelReads | crates/liter-llm-catalog-gen/src/render.rs:76-113 | A reader by name gets a model back. |
| CatalogReadBack.ProviderReads | crates/liter-llm-catalog-gen/src/render.rs:55-74 | A reader by name gets a provider back with all its models in order. |
| CatalogReadBack.DocumentReads | crates/liter-llm-catalog-gen/src/render.rs:18-113 | A reader by name gets provenance, schema version and all providers back from the document's JSON value. |
| CatalogReadBack.PrintedDocumentReadsBack | crates/liter-llm-catalog-gen/src/render.rs:18-310 | The same from the printed text: the transformed document, complete and in order, with every cost rounded to 15 decimals. |
| CatalogReadBack.RatesByName | crates/liter-llm-catalog-gen/src/transform.rs:232-263 | Under each key of a price or a tier stands the upstream cost it is for: 1_000_000 tokens cost what upstream says, up to half a unit of the 15th decimal each (Published); none where upstream gives none. |
| CatalogReadBack.CapabilitiesByName | crates/liter-llm-catalog-gen/src/transform.rs:208-218 | Under each capability's key stands what upstream says about it. |
| CatalogByName.PrintedCatalogStands | crates/liter-llm-catalog-gen/src/transform.rs:159-300 | From the printed text of a validated catalog a parser gets, under the literal names of the format, the upstream values: the providers by id in order with name, env, doc, api, npm and their models; the models by id in order with id, name, family, knowledge, dates, shape, inferred mode, both modality lists in order, limits, nine capabilities, prices per token, and every tier once in ascending order; optional ones only where upstream has them. Each object has these members only, in the order of the format. |
| CatalogByName.BuildCatalogDocument | crates/liter-llm-catalog-gen/src/lib.rs:159-162 | For a validated catalog the result is Ok, and a parser reads from it a document that says what upstream says, name by name; the only error is the printer's own check. |
| CatalogByName.RatesAreThere | crates/liter-llm-catalog-gen/src/transform.rs:232-263 | Under `input_cost_per_token` and the six other price names of a price or a tier stands the upstream cost it is named for: 1_000_000 tokens cost what upstream says, up to half a unit of the 15th decimal each; none where upstream gives none. |
| CatalogByName.TiersAreThere | crates/liter-llm-catalog-gen/src/transform.rs:232-250 | The tiers in the document are as many as upstream's, each upstream tier is there, and `min_context_tokens` ascends. |
| CatalogByName.ModelIsThere | crates/liter-llm-catalog-gen/src/transform.rs:181-230 | The same for one model, member by member. |
| CatalogByName.ProviderIsThere | crates/liter-llm-catalog-gen/src/transform.rs:166-179 | The same for one provider and all its models. |
| CatalogNames.TableNames | crates/liter-llm-catalog-gen/src/render.rs:55-275 | An object of the document has those names of its list that have a value, in the order of the list, and no other. |
| Drift.StaleMeans | crates/liter-llm-catalog-gen/src/lib.rs:196-213 | A path is reported exactly when it cannot be read, or its text is no JSON, or its member `providers` or its member `$schema_version` is not the one of the new document, absence included; only an unreadable new document is an error. |
| Drift.StaleInOrder | crates/liter-llm-catalog-gen/src/lib.rs:199-212 | The reported paths come in the order given, each as often as it is given. |
| Drift.ContentsOfDocument | crates/liter-llm-catalog-gen/src/lib.rs:191-208 | What is compared does not depend on the provenance. |
| Drift.GenerateThenCheck | crates/liter-llm-catalog-gen/src/lib.rs:159-214 | Paths that hold the generated document are not stale for a document generated with any other provenance. |
| DriftDetects.SameContentsSameNames | crates/liter-llm-catalog-gen/src/lib.rs:200-210 | If what is compared is equal, and the reader tells the numbers of the two documents apart, they have the same providers and models by name, rounded costs included. |
| DriftExact.SameNamesSameContents | crates/liter-llm-catalog-gen/src/lib.rs:200-210 | If two valid catalogs have the same providers and models by name, rounded costs included, their documents are equal to the check, in whatever order and for every reader of numbers. |
| DriftExact.StaleExactlyWhenNamesDiffer | crates/liter-llm-catalog-gen/src/lib.rs:159-214 | A copy of the document of another valid catalog is reported if and only if a provider or a model differs by name, rounded costs included. |
| Guardrails.BuildRegistry | crates/liter-llm-proxy/src/guardrail.rs:187-227 | Ok exactly when every name is not blank, no name repeats and every entry's own fields are as they have to be; then guardrail i comes from entry i with its stages, Input if it has none. Otherwise the error of the first bad entry, never that none was registered. |
| Guardrails.RunStage | crates/liter-llm/src/guardrail/registry.rs:94-113 | The first entry of the registry that is configured for the stage and blocks decides; if none blocks, the last one that rewrites; otherwise the request is allowed. |
| Guardrails.FirstBlockWins | crates/liter-llm/src/guardrail/registry.rs:97-110 | The first guardrail of the stage that blocks decides. |
| Guardrails.LastMutationWins | crates/liter-llm/src/guardrail/registry.rs:97-112 | If none blocks, only the last rewriting survives; it was made from the original payload. |
| Guardrails.ReadingsAgreeUnlessOneRewritesForOthers | crates/liter-llm/src/guardrail/registry.rs:17-19 | The documentation lets a rewriting change what later guardrails see. Whatever they say about a rewritten context, code and documentation decide alike if and only if no guardrail that rewrites, with none before it that rewrites or blocks, has another one behind it. |
| Guardrails.FirstRedactionIsLost | crates/liter-llm/src/guardrail/registry.rs:97-112 | Two redactors: the code lets the letter through that the first one took out; the documented evaluation takes out both. |
| ServiceStack.BuildServiceStack | crates/liter-llm-proxy/src/service_pool.rs:505-597 | The layers are those configured, in the documented order, written out as one list. |
| ServiceStack.ConfiguredAreOrdered | crates/liter-llm-proxy/src/service_pool.rs:505-597 | That list has exactly the layers the configuration asks for, each once, in the documented order. |
| ServiceStack.EachLayerOnce | crates/liter-llm-proxy/src/service_pool.rs:500-504 | A request that nobody answers or rewrites gets to the service, once in and once out through every layer of the stack, and changes no other state. |
| ServiceStack.SameCall | crates/liter-llm-proxy/src/service_pool.rs:500-504 | A call depends on the protected layers' states only, and so does what it leaves in them. |
| ServiceStack.StoppedRequestsLeaveNoTrace | crates/liter-llm-proxy/src/service_pool.rs:103-160 | Over any run through all stacks of a pool, key limits and ledger shared: leaving out the requests that the Input stage stops leaves every cache, health, cooldown, limit, cost tracking, budget and service, the key limits and the ledger in the same final state. |
| ServiceStack.BlockStops | crates/liter-llm/src/tower/guardrail.rs:463-469 | A block by any entry of the registry that is configured for the Input stage stops the request; if every such entry allows it, it goes on as it is. |
| ServicePool.GroupModels | crates/liter-llm-proxy/src/service_pool.rs:108-111 | Each name's group is the entries with that name in configured order. |
| ServicePool.GroupIsInOrder | crates/liter-llm-proxy/src/service_pool.rs:108-111 | A group is the entries at all the places of its name, from first to last. |
| ServicePool.DeploymentModelIds | crates/liter-llm-proxy/src/service_pool.rs:301-303 | Model identifier i belongs to entry i. |
| ServicePool.BuildBaseService | crates/liter-llm-proxy/src/service_pool.rs:328-357 | One entry gives a single client, the one built from it; several give a router with the configured strategy and weights whose deployment i is built from entry i and whose model i is that entry's. Otherwise the first entry that fails to build, or the router's refusal. |
| ServicePool.BuildPool | crates/liter-llm-proxy/src/service_pool.rs:128-150 | The loop over the groups, for every iteration order of the hash map. |
| ServicePool.FromConfig | crates/liter-llm-proxy/src/service_pool.rs:103-160 | A pool exactly when guardrails, strategy and every group build; services and clients have the configured names, each service is aligned with the entries of its name as above, and they do not depend on the iteration order; the default client is that of the first entry of the name that comes first, guardrail i comes from entry i. Otherwise the first bad guardrail, then the strategy, then the first failure of the first group in the order that cannot be built. |
| ServicePool.GroupsPartition | crates/liter-llm-proxy/src/service_pool.rs:108-111 | Every entry is in one group, once. |
| ServicePool.DefaultDependsOnOrder | crates/liter-llm-proxy/src/service_pool.rs:62-64 | For a configuration, the default client is the same for every iteration order if and only if the first entries of all its names build the same client; the comment promises it always. |
| ServicePool.TwoNamesTwoDefaults | crates/liter-llm-proxy/src/service_pool.rs:135-137 | A configuration of two names, for any clients its entries build: each of the two orders gives another default client. |

## Left out

- File system: a failed rename or removal changes nothing, a failed write may leave any prefix, `exists` is
  exact and "not found" is reported for absent files only. Directories are not tracked; symbolic links,
  permissions and other processes are not part of the model.
- PublishIsAllOrNothing: assumes that no destination is another destination's temporary or backup file; the
  destinations may repeat. PublishIsCrashSafe assumes distinct destinations, each with a parent and a file name,
  as well.
- `stamp_enabled_features`, the environment and the error texts of the build script.
- Shutdown: when a signal and the end of its window are both ready, either may be taken, as with `select!`; that
  is why SecondSignalsComeInTime assumes a prompt scheduler and AbortHasACause gives no upper bound for the
  second signal. Operating-system signal delivery, logging and the test-only `begin_draining` are left out.
- WaiterCanReturn: the waiter can always return; that the scheduler lets it is not claimed.
- WithoutComments: regular expressions are the two string patterns and the three coordinate patterns of the
  script, written as functions; reading and writing the file and `Cargo.toml` are left out.
- StripCommutesWithRewrite: old and new versions contain no quote, backslash, `/` or white space; otherwise a
  version can open a comment or a string.
- Listener.OnData: a chunk is text already; decoding a chunk that ends inside a multi-byte character is not part
  of the model. `JSON.parse` is an arbitrary function that may fail. Spawning the server and the environment
  variables are left out.
- Floats are exact reals, infinities and not-a-number: division by a million is exact, and so is reading a
  printed number. The sign of zero is not kept.
- Catalog: fields that the generator reads and never uses (descriptions, status, experimental modes, the
  duplicate 200k price) are not part of the model; neither are deserialization, its unknown-field errors, the
  SHA-256 and the date. Maps are sequences of entries in iteration order.
- `serde_json`: its recursion limit of 128 and its range check on floats are not modelled; the document is seven
  levels deep. StaleMeans takes an arbitrary function for what a number is read as; StaleExactlyWhenNamesDiffer
  assumes that it reads numbers of different value in these two documents differently.
- `write_document`, fetching over the network and the command line: single calls.
- RunStage: what a guardrail decides is an arbitrary function of guardrail, stage and context; evaluating
  regular expressions and CEL is left out, and whether a pattern compiles is a parameter.
- StoppedRequestsLeaveNoTrace: all stacks have the same layers; requests follow one another; each layer is an
  arbitrary transformer of its own state, tracing and usage hooks pass requests on unchanged, and the Input
  stage is a function of the request.
- FromConfig: building a client is an arbitrary function of the entry; keys, address, timeout and retries are
  one field. `update_key_limits`, `check_realtime_session_start` and the routing classifiers are left out.
- Generated bindings, the other consistency scripts, streaming, sockets and telemetry: single branches or
  plumbing.
